/**
 * A risk from intake to policy, under the stored rules: the verdict, the premium and the policy it ends with,
 * said of what was entered.
 */
module Journey {
  import opened Wrappers
  import opened Text
  import opened Store
  import opened Lifecycle
  import opened History
  import opened UseCases
  import opened DecimalValue
  import opened RatingDrift
  import A = Appetite
  import T = RatingTables
  import R = RatingEngine
  import V2 = RatingV2
  import HistoryRuns
  import opened Publisher
  import P = BindProtocol
  import B = BindSafety
  import C = BindCompletion
  import D = BindDuplicates
  import E = BindExample
  import BindSerial
  import BindTerms
  import RatingValue
  import RatingPlain

  // ----- a quote is given

  /** The premium of the second table, of what was entered. */
  ghost function PremiumFor(tivEur: int, occupancy: string, cover: string): real {
    RatingPlain.PlainPremium(tivEur, occupancy, tivEur > 500_000_000, Mentions(cover, "sprinkler"))
  }

  /** The premium is the half-up of the exact one up to 10^13 cents of insured value, and within a cent of it beyond. */
  ghost predicate PremiumFits(premium: int, tivEur: int, occupancy: string, cover: string) {
    && (tivEur <= 10_000_000_000_000 ==> premium == HalfUpReal(PremiumFor(tivEur, occupancy, cover)))
    && WithinACent(premium, PremiumFor(tivEur, occupancy, cover), 18.0)
  }

  lemma V2Priced(s: Submission)
    requires s.occupancy in T.OCCUPANCIES && 0 <= s.tivEur < V2.INT64_LIMIT
    ensures T.FromRules(2, T.V2_RULES) == Some(T.V2_TABLE)
    ensures R.Price(PricedFacts(s), T.V2_TABLE).Ok?
    ensures var price := R.Price(PricedFacts(s), T.V2_TABLE).value;
            && PremiumFits(price.premiumMinor, s.tivEur, s.occupancy, s.requestedCover)
            && price.rateTableVersion == 2 && price.currency == "EUR"
  {
    hide R.Price, Mentions, RatingPlain.PlainPremium, RatingValue.ExactPremium, HalfUpReal, WithinACent, T.Flags;
    hide T.FromRules, RatingValue.ExactPure, RatingValue.ExactCommercial, RatingValue.ExactTechnical;
    hide RatingPlain.PlainCommercial, RatingPlain.PlainLossCost, PricedOn, RatingPlain.ShownUpTo;
    hide RatingPlain.OutsideAuthority, R.PriceOf, R.FullPath, R.TechnicalPath, RatingValue.ExactPath;
    T.V2Reads();
    var facts := PricedFacts(s);
    T.FlagsMean(s.tivEur, s.requestedCover);
    RatingPlain.PlainAmounts(facts);
    RatingPlain.PriceMeans(facts, T.V2_TABLE);
    V2.V2WithinACent(facts);
    if s.tivEur <= 10_000_000_000_000 {
      V2.V2PricedExactly(facts);
    }
  }

  /**
   * A stored, unbound submission with a listed occupancy and any insured value a 64-bit column holds gets a quote
   * from the second table whenever its latest decision, accepting or referring, does not decline it.
   */
  lemma QuoteIsGiven(db: Tables, s: Submission, quoteId: string, actor: string)
    requires Orderly(db) && s in db.submissions && !BoundTo(db, s.id)
    requires HasDecision(db, s.id) && !LatestIs(db, s.id, A.Decline)
    requires s.occupancy in T.OCCUPANCIES && 0 <= s.tivEur < V2.INT64_LIMIT
    requires Version(2, T.V2_RULES) in db.rateTables && IsHighest(db.rateTables, Version(2, T.V2_RULES))
    requires !QuoteIdTaken(db, quoteId)
    ensures Route(db, MakeQuote(s.id, quoteId, actor)).Ok?
    ensures var db' := Route(db, MakeQuote(s.id, quoteId, actor)).value;
            && |db'.quotes| == |db.quotes| + 1
            && var q := db'.quotes[|db.quotes|];
            && db' == db.(quotes := db.quotes + [q], audit := db'.audit, clock := db'.clock)
            && db'.audit == db.audit
               + [Row(s.id, db.clock + 1, Audit(actor, Quoted(2, q.body.price.premiumMinor, "EUR")))]
            && q.submission == s.id && q.at == db.clock < db'.clock && q.body.id == quoteId && q.body.createdBy == actor
            && PremiumFits(q.body.price.premiumMinor, s.tivEur, s.occupancy, s.requestedCover)
            && q.body.price.currency == "EUR" && q.body.price.rateTableVersion == 2
  {
    hide PricedFacts, R.Price, T.FromRules, FindSubmission, Latest, Current, PremiumFits, ManifestOf, Orderly, Keyed;
    hide BoundTo, LatestIs, IsHighest, QuoteIdTaken, Ticking, HasDecision, BindingOf;
    assert Keyed(db) by { InOrder(db); }
    FindsStored(db, s.id);
    FindsBound(db, s.id);
    FindsDecision(db, s.id);
    InOrder(db);
    CurrentIff(db.rateTables, Version(2, T.V2_RULES));
    V2Priced(s);
    PricingIs(db, s, Version(2, T.V2_RULES), s.id, quoteId, actor);
  }

  lemma InOrder(db: Tables)
    requires Orderly(db)
    ensures Keyed(db) && VersionsDistinct(db.rulesets) && VersionsDistinct(db.rateTables)
  {
  }

  // ----- the first ruleset

  predicate SanctionedByV1(country: string) {
    Alike("KP", country) || Alike("IR", country) || Alike("SY", country) || Alike("RU", country)
  }

  /** The outcome the first ruleset calls for, of what was entered. */
  function OutcomeFor(intake: Intake): A.Outcome {
    if intake.occupancy == "fireworks_manufacturing" || SanctionedByV1(intake.country) then A.Decline
    else if intake.lineOfBusiness != "commercial_property" || intake.tivEur > 1_000_000_000 then A.Refer
    else A.Accept
  }

  lemma SameCountry(s: string, t: string, code: string)
    requires Alike(s, t)
    ensures Alike(code, s) <==> Alike(code, t)
  {
    hide Alike, Upper;
    SameCapitals(s, t);
    SameCapitals(code, s);
    SameCapitals(code, t);
  }

  lemma V1Outcome(s: Submission, id: string, intake: Intake, outcome: A.Outcome, reasons: seq<A.ReasonCode>)
    requires HoldsIntake(s, id, intake) && VerdictOn(s, A.V1_RULES, outcome, reasons)
    ensures outcome == OutcomeFor(intake)
  {
    hide Alike;
    var countries := A.V1_RULES.sanctionedCountries;
    assert countries[0] == "KP" && countries[1] == "IR" && countries[2] == "SY" && countries[3] == "RU";
    SameCountry(s.country, intake.country, "KP");
    SameCountry(s.country, intake.country, "IR");
    SameCountry(s.country, intake.country, "SY");
    SameCountry(s.country, intake.country, "RU");
    assert A.Listed(s.country, countries) <==> SanctionedByV1(intake.country);
    assert A.V1_RULES.allowedLobs == ["commercial_property"];
    assert A.V1_RULES.excludedOccupancies == ["fireworks_manufacturing"];
  }

  // ----- intake and assessment

  lemma UnknownIsUnbound(db: Tables, id: string)
    requires Valid(db) && !Stored(db, id)
    ensures !BoundTo(db, id)
  {
    hide Latest, BindingsOf, FindSubmission, Chronological, DecisionsReplay, QuotesReplay, AuditKnown, Audited;
    FindsStored(db, id);
    assert forall i :: 0 <= i < |db.bindings| ==> BindingFits(db, db.bindings[i]);
  }

  /** The tables after the intake of a new risk and its assessment by the first ruleset. */
  lemma IntakeAssessed(db: Tables, id: string, intake: Intake, actor: string) returns (s: Submission, db2: Tables)
    requires Valid(db) && !Stored(db, id)
    requires Version(1, A.V1_RULES) in db.rulesets && IsHighest(db.rulesets, Version(1, A.V1_RULES))
    ensures var db1 := Committed(db, Route(db, Create(id, intake, actor)));
            db2 == Committed(db1, Route(db1, Assess(id, actor)))
    ensures Valid(db2) && HoldsIntake(s, id, intake) && s in db2.submissions
    ensures HasDecision(db2, id) && LatestIs(db2, id, OutcomeFor(intake))
    ensures db2 == db.(submissions := db.submissions + [s], decisions := db2.decisions, audit := db2.audit,
              clock := db2.clock)
    ensures !BoundTo(db2, id)
  {
    hide Valid, Orderly, FindSubmission, HoldsIntake, Decide, HasDecision, LatestIs, BoundTo, Stored, VerdictOn;
    hide CreateSubmission, DecisionIs, OutcomeFor, IsHighest;
    ValidIsOrderly(db);
    InOrder(db);
    IntakeMeans(db, id, intake, actor);
    UnknownIsUnbound(db, id);
    var db1 := Committed(db, Route(db, Create(id, intake, actor)));
    HistoryRuns.RequestKeepsValid(db, Create(id, intake, actor));
    ValidIsOrderly(db1);
    InOrder(db1);
    s := db1.submissions[|db.submissions|];
    SameBindings(db, db1, id);
    OwnId(s, id, intake);
    NowStored(db1, s);
    assert db1.rulesets != [];
    AssessMeans(db1, id, actor);
    RouteMeans(db1, Assess(id, actor));
    HistoryRuns.RequestKeepsValid(db1, Assess(id, actor));
    db2 := Committed(db1, Route(db1, Assess(id, actor)));
    var d := Decide(db1, id, actor).value;
    DecidedByV1(db1, s, id, intake, actor, d);
    ValidIsOrderly(db2);
    NowAssessed(db1, id, d);
    SameBindings(db1, db2, id);
  }

  lemma SameBindings(a: Tables, b: Tables, id: string)
    requires a.bindings == b.bindings
    ensures BoundTo(a, id) <==> BoundTo(b, id)
  {
  }

  lemma NowStored(db: Tables, s: Submission)
    requires s in db.submissions
    ensures Stored(db, s.id)
  {
  }

  lemma DecidedByV1(db: Tables, s: Submission, id: string, intake: Intake, actor: string, d: Decision)
    requires Keyed(db) && s in db.submissions && HoldsIntake(s, id, intake) && DecisionIs(db, id, actor, d)
    requires Version(1, A.V1_RULES) in db.rulesets && IsHighest(db.rulesets, Version(1, A.V1_RULES))
    ensures d.outcome == OutcomeFor(intake)
  {
    hide FindSubmission, VerdictOn, OutcomeFor;
    var s', v :| s' in db.submissions && v in db.rulesets && s'.id == id && IsHighest(db.rulesets, v)
        && VerdictOn(s', v.rules, d.outcome, d.reasonCodes);
    FindsStored(db, id);
    assert s.id == id && s == s';
    CurrentIff(db.rulesets, v);
    CurrentIff(db.rulesets, Version(1, A.V1_RULES));
    V1Outcome(s, id, intake, d.outcome, d.reasonCodes);
  }

  lemma NowAssessed(db: Tables, id: string, d: Decision)
    requires Orderly(db) && Orderly(InsertDecision(db, id, d))
    ensures var db' := InsertDecision(db, id, d); HasDecision(db', id) && LatestIs(db', id, d.outcome)
  {
    hide Latest, Keyed, Ticking;
    var db' := InsertDecision(db, id, d);
    LatestAppend(db.decisions, Row(id, db.clock, d), id, db.clock);
    FindsDecision(db', id);
  }

  // ----- from intake to quote

  lemma NotTwoOutcomes(db: Tables, id: string, a: A.Outcome, b: A.Outcome)
    requires Orderly(db) && LatestIs(db, id, a) && LatestIs(db, id, b)
    ensures a == b
  {
    hide LatestIs, Orderly;
    FindsDecision(db, id);
  }

  /**
   * In the tables of any serial run whose highest versions are the first ruleset and the second rate table, a
   * new risk that is taken in, assessed and quoted: its latest decision is the outcome its entered fields call
   * for; a declined risk has no quote; any other has one, at the premium of its entered fields; and if it was
   * accepted it may be bound on that quote.
   */
  lemma FromIntakeToQuote(db: Tables, id: string, intake: Intake, quoteId: string, actor: string)
    returns (db2: Tables, db3: Tables)
    requires Valid(db) && !Stored(db, id) && !QuoteIdTaken(db, quoteId)
    requires Version(1, A.V1_RULES) in db.rulesets && IsHighest(db.rulesets, Version(1, A.V1_RULES))
    requires Version(2, T.V2_RULES) in db.rateTables && IsHighest(db.rateTables, Version(2, T.V2_RULES))
    requires intake.occupancy in T.OCCUPANCIES && 0 <= intake.tivEur < V2.INT64_LIMIT
    ensures var db1 := Committed(db, Route(db, Create(id, intake, actor)));
            && db2 == Committed(db1, Route(db1, Assess(id, actor)))
            && db3 == Committed(db2, Route(db2, MakeQuote(id, quoteId, actor)))
    ensures Valid(db3) && LatestIs(db3, id, OutcomeFor(intake))
    ensures OutcomeFor(intake) == A.Decline ==>
              Route(db2, MakeQuote(id, quoteId, actor)) == Err(DeclinedRisk) && db3.quotes == db.quotes
    ensures OutcomeFor(intake) != A.Decline ==>
              && |db3.quotes| == |db.quotes| + 1
              && var q := db3.quotes[|db.quotes|];
              && db3.quotes == db.quotes + [q] && q.submission == id && q.body.id == quoteId
              && q.body.price.currency == "EUR"
              && PremiumFits(q.body.price.premiumMinor, intake.tivEur, intake.occupancy, intake.requestedCover)
              && (OutcomeFor(intake) == A.Accept ==> MayBind(db3, id, q))
    ensures exists s :: s in db3.submissions && HoldsIntake(s, id, intake)
    ensures db3.bindings == db.bindings
  {
    hide Valid, Orderly, FindSubmission, HoldsIntake, PriceQuote, HasDecision, BoundTo, Stored, IsHighest;
    hide OutcomeFor, PremiumFits, QuoteIdTaken, LatestIs, CreateSubmission;
    var s;
    s, db2 := IntakeAssessed(db, id, intake, actor);
    db3 := Committed(db2, Route(db2, MakeQuote(id, quoteId, actor)));
    ValidIsOrderly(db2);
    HistoryRuns.RequestKeepsValid(db2, MakeQuote(id, quoteId, actor));
    ValidIsOrderly(db3);
    RouteMeans(db2, MakeQuote(id, quoteId, actor));
    OwnId(s, id, intake);
    NowStored(db2, s);
    if OutcomeFor(intake) == A.Decline {
      QuoteMeans(db2, id, quoteId, actor);
      DeclinedIsRefused(db2, id, quoteId, actor);
    } else {
      if LatestIs(db2, id, A.Decline) {
        NotTwoOutcomes(db2, id, A.Decline, OutcomeFor(intake));
      }
      SameQuotes(db, db2, quoteId);
      QuoteIsGiven(db2, s, quoteId, actor);
      SameDecisions(db2, db3, id, OutcomeFor(intake));
      if OutcomeFor(intake) == A.Accept {
        NowBindable(db2, db3, s);
      }
    }
  }

  lemma OwnId(s: Submission, id: string, intake: Intake)
    requires HoldsIntake(s, id, intake)
    ensures s.id == id && s.tivEur == intake.tivEur && s.occupancy == intake.occupancy
    ensures s.requestedCover == intake.requestedCover && s.counterparty == intake.counterparty
    ensures s.lineOfBusiness == intake.lineOfBusiness
  {
  }

  lemma SameQuotes(a: Tables, b: Tables, quoteId: string)
    requires a.quotes == b.quotes
    ensures QuoteIdTaken(a, quoteId) <==> QuoteIdTaken(b, quoteId)
  {
  }

  lemma SameDecisions(a: Tables, b: Tables, id: string, outcome: A.Outcome)
    requires a.decisions == b.decisions
    ensures LatestIs(a, id, outcome) <==> LatestIs(b, id, outcome)
  {
  }

  lemma DeclinedIsRefused(db: Tables, id: string, quoteId: string, actor: string)
    requires Orderly(db) && Stored(db, id) && HasDecision(db, id) && LatestIs(db, id, A.Decline)
    ensures PriceQuote(db, id, quoteId, actor) == Err(DeclinedRisk)
  {
    hide Stored, HasDecision, LatestIs, Orderly, PriceQuote, PricingAnswers;
    QuoteMeans(db, id, quoteId, actor);
  }

  lemma NowBindable(db: Tables, db': Tables, s: Submission)
    requires Orderly(db) && s in db.submissions && !BoundTo(db, s.id) && LatestIs(db, s.id, A.Accept)
    requires |db'.quotes| == |db.quotes| + 1
    requires db'.quotes[|db.quotes|].submission == s.id && db'.quotes[|db.quotes|].at == db.clock
    requires db' == db.(quotes := db.quotes + [db'.quotes[|db.quotes|]], audit := db'.audit, clock := db'.clock)
    ensures MayBind(db', s.id, db'.quotes[|db.quotes|])
  {
    hide Keyed;
    var q := db'.quotes[|db.quotes|];
    assert IsLatest(db'.quotes, s.id, q);
    SameDecisions(db, db', s.id, A.Accept);
    SameBindings(db, db', s.id);
    NowStored(db', s);
  }

  // ----- from intake to policy

  lemma AskFits(config: P.Config, shared: P.Shared, request: Request)
    requires B.SharedFits(config, shared)
    ensures B.SharedFits(config, shared.(db := Committed(shared.db, Route(shared.db, request))))
  {
    hide B.SharedFits, Service;
    if Route(shared.db, request).Ok? {
      BindSerial.RouteIsService(shared.db, request);
      B.OtherFits(config, shared, request);
    }
  }

  /** No stored quote has the digest of this id. */
  predicate DigestIsNew(config: P.Config, db: Tables, quoteId: string) {
    forall q :: q in db.quotes ==> config.digest(q.body.id) != config.digest(quoteId)
  }

  lemma NewDigest(config: P.Config, db: Tables, db': Tables, quoteId: string)
    requires B.NoCollision(config, db) && DigestIsNew(config, db, quoteId)
    requires |db'.quotes| == |db.quotes| + 1 && db'.quotes == db.quotes + [db'.quotes[|db.quotes|]]
    requires db'.quotes[|db.quotes|].body.id == quoteId
    ensures B.NoCollision(config, db') && !QuoteIdTaken(db, quoteId)
  {
    forall q | q in db.quotes
      ensures P.PolicyNumberFor(config, q.body.id) != P.PolicyNumberFor(config, quoteId)
    {
      assert P.PolicyNumberFor(config, q.body.id)[3..] == config.digest(q.body.id);
      assert P.PolicyNumberFor(config, quoteId)[3..] == config.digest(quoteId);
    }
  }

  lemma DigestsApart(config: P.Config, db: Tables, quoteId: string)
    requires DigestIsNew(config, db, quoteId)
    ensures !QuoteIdTaken(db, quoteId)
    ensures forall i :: 0 <= i < |db.quotes| ==> db.quotes[i].body.id != quoteId
  {
  }

  /** What a bind of this risk leaves when it is the first under its number. */
  ghost predicate BoundAsEntered(config: P.Config, before: P.Shared, end: P.Shared, id: string, intake: Intake,
          quoteId: string, terms: P.Terms, freshId: string, deliveries: seq<Delivery>, premium: int) {
    var number, tries := "UW-" + config.digest(quoteId), P.MaxTries(config);
    && |end.db.bindings| == |before.db.bindings| + 1
    && var b := end.db.bindings[|before.db.bindings|];
    && end.db.bindings == before.db.bindings + [b]
    && b == Binding(id, quoteId, number, freshId, "bound", AnyAnswered(deliveries, tries), b.boundAt, terms.actor)
    && freshId in end.pas
    && end.pas[freshId] == P.Policy(number, intake.counterparty, "COMM_PROP", terms.effective, terms.expiry, P.Active)
    && premium == HalfUpReal(PremiumFor(intake.tivEur, intake.occupancy, intake.requestedCover))
    && end.events == before.events + Copies(
           Event(number, id, quoteId, premium, "EUR", "COMM_PROP", terms.effective, terms.expiry),
           Sent(deliveries, tries))
  }

  /**
   * A new risk the first ruleset accepts, taken in, assessed, quoted and bound one after the other: it ends with
   * one new binding, an active policy of its counterparty under the number of its quote, and the announcement of
   * the exact premium of its entered fields.
   */
  lemma FromIntakeToPolicy(config: P.Config, shared: P.Shared, id: string, intake: Intake, quoteId: string,
          actor: string, terms: P.Terms, freshId: string, page: seq<string>, deliveries: seq<Delivery>)
    returns (end: P.Shared, premium: int)
    requires Valid(shared.db) && B.SharedFits(config, shared) && B.NoCollision(config, shared.db)
    requires !Stored(shared.db, id) && DigestIsNew(config, shared.db, quoteId)
    requires Version(1, A.V1_RULES) in shared.db.rulesets && IsHighest(shared.db.rulesets, Version(1, A.V1_RULES))
    requires Version(2, T.V2_RULES) in shared.db.rateTables && IsHighest(shared.db.rateTables, Version(2, T.V2_RULES))
    requires intake.occupancy in T.OCCUPANCIES && 0 <= intake.tivEur && OutcomeFor(intake) == A.Accept
    requires freshId !in shared.pas && |deliveries| >= P.MaxTries(config)
    ensures end == BindSerial.Serve(config, shared,
                [BindSerial.Ask(Create(id, intake, actor)), BindSerial.Ask(Assess(id, actor)),
                 BindSerial.Ask(MakeQuote(id, quoteId, actor)),
                 BindSerial.BindRequest(id, terms, C.Undisturbed(freshId, page, deliveries))])
    ensures BoundAsEntered(config, shared, end, id, intake, quoteId, terms, freshId, deliveries, premium)
  {
    hide Valid, B.SharedFits, B.NoCollision, Stored, DigestIsNew, IsHighest, PremiumFits, P.Taken, P.BindAlone, MayBind;
    hide Route, BindSerial.Serve, C.Undisturbed, HoldsIntake, GuardAnswers, GuardBind, Orderly, QuoteIdTaken;
    AcceptedIsSmall(intake);
    DigestsApart(config, shared.db, quoteId);
    var db1 := Committed(shared.db, Route(shared.db, Create(id, intake, actor)));
    var db2, db3 := FromIntakeToQuote(shared.db, id, intake, quoteId, actor);
    ThreeAsksFit(config, shared, id, intake, quoteId, actor);
    var quoted := shared.(db := db3);
    var q := db3.quotes[|shared.db.quotes|];
    premium := q.body.price.premiumMinor;
    NewDigest(config, shared.db, db3, quoteId);
    ValidIsOrderly(db3);
    GuardMeans(db3, id);
    C.StartProceeds(config, db3, id, terms);
    D.NewNumberIsFree(config, shared, db3, q);
    BindTerms.FirstBindOpens(config, quoted, id, terms, freshId, page, deliveries);
    end := P.BindAlone(config, quoted, id, terms, C.Undisturbed(freshId, page, deliveries)).0;
    StartsWithEntered(config, db3, id, intake, terms);
    ExactWhenSmall(premium, intake);
    FourServed(config, shared, id, intake, quoteId, actor, terms, C.Undisturbed(freshId, page, deliveries));
  }

  lemma AcceptedIsSmall(intake: Intake)
    requires OutcomeFor(intake) == A.Accept
    ensures intake.tivEur <= 1_000_000_000 && intake.lineOfBusiness == "commercial_property"
  {
  }

  lemma ExactWhenSmall(premium: int, intake: Intake)
    requires PremiumFits(premium, intake.tivEur, intake.occupancy, intake.requestedCover)
    requires intake.tivEur <= 1_000_000_000
    ensures premium == HalfUpReal(PremiumFor(intake.tivEur, intake.occupancy, intake.requestedCover))
  {
    hide HalfUpReal, PremiumFor, WithinACent;
  }

  lemma ThreeAsksFit(config: P.Config, shared: P.Shared, id: string, intake: Intake, quoteId: string, actor: string)
    requires B.SharedFits(config, shared)
    ensures var db1 := Committed(shared.db, Route(shared.db, Create(id, intake, actor)));
            var db2 := Committed(db1, Route(db1, Assess(id, actor)));
            B.SharedFits(config, shared.(db := Committed(db2, Route(db2, MakeQuote(id, quoteId, actor)))))
  {
    hide B.SharedFits, Route;
    var db1 := Committed(shared.db, Route(shared.db, Create(id, intake, actor)));
    var db2 := Committed(db1, Route(db1, Assess(id, actor)));
    AskFits(config, shared, Create(id, intake, actor));
    AskFits(config, shared.(db := db1), Assess(id, actor));
    AskFits(config, shared.(db := db2), MakeQuote(id, quoteId, actor));
  }

  lemma StartsWithEntered(config: P.Config, db: Tables, id: string, intake: Intake, terms: P.Terms)
    requires Orderly(db) && P.StartBind(config, db, id, terms).Goes?
    requires exists s :: s in db.submissions && HoldsIntake(s, id, intake)
    requires intake.lineOfBusiness == "commercial_property"
    ensures var a := P.StartBind(config, db, id, terms).attempt;
            a.submission.counterparty == intake.counterparty
            && P.ProductFor(a.submission.lineOfBusiness) == "COMM_PROP"
  {
    hide FindSubmission, Latest, BindingOf, HoldsIntake, Keyed, Ticking;
    var s :| s in db.submissions && HoldsIntake(s, id, intake);
    OwnId(s, id, intake);
    FindsStored(db, id);
  }

  lemma FourServed(config: P.Config, shared: P.Shared, id: string, intake: Intake, quoteId: string, actor: string,
          terms: P.Terms, calls: seq<P.Call>)
    ensures var db1 := Committed(shared.db, Route(shared.db, Create(id, intake, actor)));
            var db2 := Committed(db1, Route(db1, Assess(id, actor)));
            var db3 := Committed(db2, Route(db2, MakeQuote(id, quoteId, actor)));
            BindSerial.Serve(config, shared,
                [BindSerial.Ask(Create(id, intake, actor)), BindSerial.Ask(Assess(id, actor)),
                 BindSerial.Ask(MakeQuote(id, quoteId, actor)), BindSerial.BindRequest(id, terms, calls)])
            == P.BindAlone(config, shared.(db := db3), id, terms, calls).0
  {
    hide Route, P.BindAlone, BindSerial.Serve;
    E.FourRequests(config, shared, BindSerial.Ask(Create(id, intake, actor)), BindSerial.Ask(Assess(id, actor)),
        BindSerial.Ask(MakeQuote(id, quoteId, actor)), BindSerial.BindRequest(id, terms, calls));
  }
}
