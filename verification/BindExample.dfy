/**
 * Two runs from the empty tables: one that ends with two active policies of one submission, of which only
 * the second has a binding although the first was announced, and one after which a retry keeps failing.
 */
module BindExample {
  import opened Wrappers
  import opened Text
  import opened Store
  import opened Lifecycle
  import opened History
  import opened BindProtocol
  import opened Publisher
  import opened BindSafety
  import opened BindSerial
  import opened BindCompletion
  import opened BindDuplicates
  import A = Appetite
  import T = RatingTables
  import R = RatingEngine
  import V2 = RatingV2

  const INTAKE := Intake("Acme", "commercial_property", 10_000_000, "office", "DE", "")
  const RISK := Submission("s-1", 0, "Acme", "commercial_property", 10_000_000, "office", "DE", "")

  /** Startup, intake, assessment, first quote. */
  const QUOTED: seq<Request'> := [
    Ask(Restart), Ask(Create("s-1", INTAKE, "ann")), Ask(Assess("s-1", "ann")), Ask(MakeQuote("s-1", "q-1", "ann"))]

  lemma Seeded()
    ensures Seed(EMPTY)
            == EMPTY.(
                 rulesets := [Version(1, A.V1_RULES)],
                 rateTables := [Version(1, T.V1_RULES), Version(2, T.V2_RULES)])
    ensures Current(Seed(EMPTY).rulesets) == Some(Version(1, A.V1_RULES))
    ensures Current(Seed(EMPTY).rateTables) == Some(Version(2, T.V2_RULES))
  {
    var first, second := Version(1, T.V1_RULES), Version(2, T.V2_RULES);
    assert [first][..0] == [] && [first][1..] == [] && [first, second][..1] == [first];
    assert GetVersion([first], 2) == None;
    assert [Version(1, A.V1_RULES)][..0] == [];
    assert [] + [first] == [first] && [first] + [second] == [first, second];
    assert Current([first]) == Some(first);
  }

  lemma NotGermany(c: string)
    requires c in ["KP", "IR", "SY", "RU"]
    ensures !Alike(c, "DE")
  {
    assert !SameLetter(c[0], "DE"[0]);
  }

  lemma Accepted()
    ensures A.Assess(AppetiteFacts(RISK), A.FromRules(1, A.V1_RULES)).0 == A.Accept
  {
    hide A.Assess, A.FromRules, Alike;
    A.StoredVerdictMeans(AppetiteFacts(RISK), 1, A.V1_RULES);
    forall c | c in A.V1_RULES.sanctionedCountries ensures !Alike(c, "DE") {
      NotGermany(c);
    }
    assert A.V1_RULES.allowedLobs[0] == "commercial_property";
  }

  lemma Priced(db: Tables, id: string)
    requires FindSubmission(db.submissions, "s-1") == Some(RISK)
    requires Current(db.rateTables) == Some(Version(2, T.V2_RULES))
    requires Latest(db.decisions, "s-1").Some? && Latest(db.decisions, "s-1").value.body.outcome == A.Accept
    requires forall i :: 0 <= i < |db.quotes| ==> db.quotes[i].body.id != id
    ensures PriceQuote(db, "s-1", id, "ann").Ok?
  {
    hide FindSubmission, Latest, Current, T.FromRules, R.Price, R.PriceOf, T.Flags;
    T.V2Reads();
    V2.V2Prices(PricedFacts(RISK));
  }

  /** The tables after the four requests. */
  lemma AfterQuote(config: Config) returns (quote: Quote)
    ensures var shared := Serve(config, START.shared, QUOTED);
            && shared.pas == map[] && shared.db.bindings == []
            && shared.db.quotes == [Row("s-1", 4, quote)] && quote.id == "q-1"
            && GuardBind(shared.db, "s-1") == Ok(Proceeds(shared.db.quotes[0]))
            && PriceQuote(shared.db, "s-1", "q-2", "ann").Ok?
  {
    hide Seed, A.Assess, PriceQuote, Handle, Serve, FindSubmission, Current;
    Seeded();
    var s0 := START.shared;
    var s1 := Handle(config, s0, QUOTED[0]);
    SeedHandled(config, s0);
    var s2 := Handle(config, s1, QUOTED[1]);
    Created(config, s1);
    var s3 := Handle(config, s2, QUOTED[2]);
    Accepted();
    Decided(config, s2);
    Priced(s3.db, "q-1");
    QuoteHasItsId(s3.db, "s-1", "q-1", "ann");
    quote := PriceQuote(s3.db, "s-1", "q-1", "ann").value;
    var s4 := Handle(config, s3, QUOTED[3]);
    Quoted(config, s3);
    Priced(s4.db, "q-2");
    FourRequests(config, s0, QUOTED[0], QUOTED[1], QUOTED[2], QUOTED[3]);
  }

  lemma FourRequests(config: Config, shared: Shared, a: Request', b: Request', c: Request', d: Request')
    ensures Serve(config, shared, [a, b, c, d])
            == Handle(config, Handle(config, Handle(config, Handle(config, shared, a), b), c), d)
  {
    hide Handle, Serve;
    ThreeRequests(config, shared, a, b, c);
    LastRequest(config, shared, [a, b, c], d);
    assert [a, b, c] + [d] == [a, b, c, d];
  }

  lemma LastRequest(config: Config, shared: Shared, before: seq<Request'>, last: Request')
    ensures Serve(config, shared, before + [last]) == Handle(config, Serve(config, shared, before), last)
  {
    hide Handle;
    assert (before + [last])[..|before|] == before;
  }

  lemma SeedHandled(config: Config, shared: Shared)
    ensures Handle(config, shared, Ask(Restart)) == shared.(db := Seed(shared.db))
  {
    hide Seed;
  }

  lemma Created(config: Config, shared: Shared)
    requires shared.db.submissions == [] && shared.db.clock == 0
    ensures var db' := Handle(config, shared, Ask(Create("s-1", INTAKE, "ann"))).db;
            && db' == shared.db.(submissions := [RISK], audit := db'.audit, clock := 2)
            && FindSubmission(db'.submissions, "s-1") == Some(RISK)
    ensures Handle(config, shared, Ask(Create("s-1", INTAKE, "ann"))).pas == shared.pas
  {
    assert Upper("DE") == "DE";
    assert [] + [RISK] == [RISK];
  }

  lemma Decided(config: Config, shared: Shared)
    requires FindSubmission(shared.db.submissions, "s-1") == Some(RISK)
    requires Current(shared.db.rulesets) == Some(Version(1, A.V1_RULES))
    requires shared.db.decisions == [] && shared.db.bindings == [] && shared.db.clock == 2
    requires A.Assess(AppetiteFacts(RISK), A.FromRules(1, A.V1_RULES)).0 == A.Accept
    ensures var shared' := Handle(config, shared, Ask(Assess("s-1", "ann")));
            && shared'.pas == shared.pas
            && shared'.db == shared.db.(decisions := shared'.db.decisions, audit := shared'.db.audit, clock := 4)
            && Latest(shared'.db.decisions, "s-1").Some?
            && Latest(shared'.db.decisions, "s-1").value.body.outcome == A.Accept
  {
    hide FindSubmission, Current, A.Assess, A.FromRules;
    var decision := Decide(shared.db, "s-1", "ann").value;
    assert [] + [Row("s-1", 2, decision)] == [Row("s-1", 2, decision)];
    assert [Row("s-1", 2, decision)][..0] == [];
  }

  lemma Quoted(config: Config, shared: Shared)
    requires PriceQuote(shared.db, "s-1", "q-1", "ann").Ok? && FindSubmission(shared.db.submissions, "s-1").Some?
    requires shared.db.quotes == [] && shared.db.bindings == [] && shared.db.clock == 4
    requires Latest(shared.db.decisions, "s-1").Some?
    requires Latest(shared.db.decisions, "s-1").value.body.outcome == A.Accept
    ensures var shared' := Handle(config, shared, Ask(MakeQuote("s-1", "q-1", "ann")));
            && shared'.pas == shared.pas
            && shared'.db == shared.db.(quotes := shared'.db.quotes, audit := shared'.db.audit, clock := 6)
            && shared'.db.quotes == [Row("s-1", 4, PriceQuote(shared.db, "s-1", "q-1", "ann").value)]
            && GuardBind(shared'.db, "s-1") == Ok(Proceeds(shared'.db.quotes[0]))
  {
    hide FindSubmission, PriceQuote;
    var row := Row("s-1", 4, PriceQuote(shared.db, "s-1", "q-1", "ann").value);
    assert [] + [row] == [row] && [row][..0] == [];
    assert Latest([row], "s-1") == Some(row) && BindingOf([], "s-1") == None;
  }

  lemma RequotedApart(config: Config, db: Tables, quote: Quote)
    requires config.digest("q-1") != config.digest("q-2")
    requires db.quotes == [Row("s-1", 4, quote)] && quote.id == "q-1" && BindingOf(db.bindings, "s-1").None?
    requires PriceQuote(db, "s-1", "q-2", "ann").Ok?
    ensures Route(db, MakeQuote("s-1", "q-2", "ann")).Ok?
    ensures NoCollision(config, Route(db, MakeQuote("s-1", "q-2", "ann")).value)
  {
    hide PriceQuote;
    QuoteHasItsId(db, "s-1", "q-2", "ann");
    NumbersApart(config);
  }

  lemma NumbersApart(config: Config)
    requires config.digest("q-1") != config.digest("q-2")
    ensures PolicyNumberFor(config, "q-1") != PolicyNumberFor(config, "q-2")
  {
    assert PolicyNumberFor(config, "q-1")[3..] == config.digest("q-1");
    assert PolicyNumberFor(config, "q-2")[3..] == config.digest("q-2");
  }

  lemma NoneTaken(pas: Pas, number: string)
    requires pas == map[]
    ensures !Taken(pas, number)
  {
  }

  lemma TellsTime(db: Tables)
    requires Valid(db)
    ensures Chronological(db)
  {
  }

  lemma {:induction false} RequestsConcat(config: Config, shared: Shared, a: seq<Request'>, b: seq<Request'>)
    ensures Serve(config, shared, a + b) == Serve(config, Serve(config, shared, a), b)
  {
    hide Handle;
    if b == [] {
      assert a + b == a;
    } else {
      assert (a + b)[..|a + b| - 1] == a + b[..|b| - 1];
      RequestsConcat(config, shared, a, b[..|b| - 1]);
    }
  }

  const TERMS := Terms("2030-01-01T00:00:00Z", "2031-01-01T00:00:00Z", "ann")

  predicate AnnouncesFirst(config: Config, e: Event) {
    e.policyNumber == "UW-" + config.digest("q-1") && e.submission == "s-1" && e.quote == "q-1"
  }

  /**
   * Whatever the digest, as long as it tells two quotes apart: a bind that dies, another quote and a
   * second bind leave two active policies of submission s-1. The first has its event on the log, and only
   * the second has a binding.
   */
  lemma OneSubmissionTwoPolicies(config: Config, deliveries: seq<Delivery>)
    requires config.digest("q-1") != config.digest("q-2") && |deliveries| >= MaxTries(config)
    ensures var end :=
            Serve(config, START.shared, QUOTED + QuotedInBetween("s-1", TERMS, "p-1", "q-2", "ann", "p-2", deliveries));
            && Holds(end.pas, "p-1", "UW-" + config.digest("q-1"), Active)
            && |end.db.bindings| == 1 && end.db.bindings[0].quote == "q-2" && end.db.bindings[0].pasPolicyId != "p-1"
            && Holds(end.pas, end.db.bindings[0].pasPolicyId, "UW-" + config.digest("q-2"), Active)
            && !OnePolicyFor(config, end, "s-1")
            && exists e :: e in end.events && AnnouncesFirst(config, e)
  {
    hide Serve, SharedFits, GuardBind, PriceQuote, OnePolicyFor, Route, Valid, Taken, NoCollision, StartBind;
    hide Chronological;
    var quote := AfterQuote(config);
    SerialRunsAreSound(config, QUOTED);
    var shared := Serve(config, START.shared, QUOTED);
    TellsTime(shared.db);
    StartProceeds(config, shared.db, "s-1", TERMS);
    NoneTaken(shared.pas, StartBind(config, shared.db, "s-1", TERMS).attempt.number);
    StartsUnbound(config, shared.db, "s-1", TERMS);
    RequotedApart(config, shared.db, quote);
    var first := StartBind(config, shared.db, "s-1", TERMS).attempt;
    assert AnnouncesFirst(config, EventOf(first));
    QuoteInBetweenLeavesAPolicy(config, shared, "s-1", TERMS, "p-1", "q-2", "ann", "p-2", deliveries);
    RequestsConcat(config, START.shared, QUOTED, QuotedInBetween("s-1", TERMS, "p-1", "q-2", "ann", "p-2", deliveries));
  }

  lemma OnlyQuoteIsApart(config: Config, db: Tables)
    requires |db.quotes| == 1
    ensures NoCollision(config, db)
  {
  }

  /**
   * From the empty tables, for any digest: a bind that dies past activate leaves an active policy and its
   * event, and a retry whose lookup page does not list that policy fails with the conflict.
   */
  lemma RetryFailsUnlisted(config: Config, deliveries: seq<Delivery>)
    requires |deliveries| >= MaxTries(config)
    ensures var dead := Serve(config, START.shared, QUOTED + [BindRequest("s-1", TERMS, Dying("p-1"))]);
            && Holds(dead.pas, "p-1", "UW-" + config.digest("q-1"), Active)
            && BindingOf(dead.db.bindings, "s-1").None? && |dead.events| > 0
            && BindAlone(config, dead, "s-1", TERMS, Undisturbed("p-2", [], deliveries))
               == (dead, Ends(Err(PolicyAlreadyExists)))
  {
    hide Serve, SharedFits, GuardBind, PriceQuote, Valid, Taken, NoCollision, StartBind, Handle, BindAlone;
    hide Undisturbed, Dying;
    hide BindingsOf;
    var quote := AfterQuote(config);
    SerialRunsAreSound(config, QUOTED);
    var shared := Serve(config, START.shared, QUOTED);
    StartProceeds(config, shared.db, "s-1", TERMS);
    NoneTaken(shared.pas, StartBind(config, shared.db, "s-1", TERMS).attempt.number);
    StartsUnbound(config, shared.db, "s-1", TERMS);
    OnlyQuoteIsApart(config, shared.db);
    RetryMissesItsPolicy(config, shared, "s-1", TERMS, "p-1", "p-2", deliveries);
    LastRequest(config, START.shared, QUOTED, BindRequest("s-1", TERMS, Dying("p-1")));
  }
}
