/**
 * The workbench as a service over its tables: each use-case reads, computes and inserts step by step,
 * and leaves exactly the tables `Lifecycle` says it commits.
 */
module Workbench {
  import opened Wrappers
  import opened Text
  import opened Store
  import opened Lifecycle
  import opened BindProtocol
  import opened BindSerial
  import opened BindSafety
  import opened Publisher
  import opened PolicyClient
  import opened BindCompletion
  import A = Appetite
  import History
  import HistoryRuns
  import Decimals
  import D = DecimalText
  import R = RatingEngine
  import T = RatingTables
  import U = UseCases

  /** How the calls of one bind are answered. */
  datatype Answers = Answers(
    freshId: string,
    page: seq<string>,
    create: Answer,
    submit: Answer,
    activate: Answer,
    deliveries: seq<Delivery>,
    commits: bool)

  /** The external steps those answers amount to: all of them up to the first call that fails. */
  function Schedule(x: Answers): seq<Call> {
    if x.create.Failed? then []
    else if x.create.Lost? then [Send(x.freshId)]
    else [Send(x.freshId), Look(x.page)] + AfterCreate(x)
  }

  function AfterCreate(x: Answers): seq<Call> {
    if x.submit.Failed? then []
    else if x.submit.Lost? then [Send(x.freshId)]
    else [Send(x.freshId)] + AfterSubmit(x)
  }

  function AfterSubmit(x: Answers): seq<Call> {
    if x.activate.Failed? then []
    else if x.activate.Lost? then [Send(x.freshId)]
    else [Send(x.freshId)] + AfterActivate(x)
  }

  function AfterActivate(x: Answers): seq<Call> {
    Publishes(x.deliveries) + if x.commits then [Commit] else []
  }

  // ----- what each answer leads to

  lemma CreateScheduled(config: Config, shared: Shared, a: Attempt, x: Answers)
    requires a.phase.Guarded? && x.freshId !in shared.pas
    ensures var taken, found := Taken(shared.pas, a.number), Resolve(shared.pas, x.page, a.number);
            var after := if taken then shared else shared.(pas := shared.pas[x.freshId := PolicyOf(a)]);
            var (end, last) := Drive(config, shared, Goes(a), Schedule(x));
            && (x.create.Failed? ==> end == shared && last.Goes?)
            && (x.create.Lost? ==> end == after && last.Goes?)
            && (x.create.Answered? && taken && found.None? ==> (end, last) == (shared, Ends(Err(PolicyAlreadyExists))))
            && (x.create.Answered? && (!taken || found.Some?) ==>
                  var policy := if taken then found.value else x.freshId;
                  && policy in after.pas
                  && (end, last) == Drive(config, after, Goes(a.(phase := Opened(policy))), AfterCreate(x)))
  {
    hide Drive, Taken, AfterCreate;
    ResolveFinds(shared.pas, x.page, a.number);
    DriveNothing(config, shared, Goes(a));
    var (first, sent) := Do(config, shared, a, Send(x.freshId));
    assert [Send(x.freshId)] + [] == [Send(x.freshId)];
    DriveStep(config, shared, a, Send(x.freshId), []);
    DriveNothing(config, first, sent);
    assert [Send(x.freshId), Look(x.page)] + AfterCreate(x) == [Send(x.freshId)] + ([Look(x.page)] + AfterCreate(x));
    DriveStep(config, shared, a, Send(x.freshId), [Look(x.page)] + AfterCreate(x));
    DriveStep(config, first, sent.attempt, Look(x.page), AfterCreate(x));
    var (second, looked) := Do(config, first, sent.attempt, Look(x.page));
    if looked.Ends? {
      EndsThere(config, second, looked, AfterCreate(x));
    }
  }

  lemma SubmitScheduled(config: Config, shared: Shared, a: Attempt, policy: string, x: Answers)
    requires a.phase == Opened(policy) && policy in shared.pas
    ensures var after := shared.(pas := Transition(shared.pas, policy, Draft, Submitted));
            var (end, last) := Drive(config, shared, Goes(a), AfterCreate(x));
            && (x.submit.Failed? ==> end == shared && last.Goes?)
            && (x.submit.Lost? ==> end == after && last.Goes?)
            && (x.submit.Answered?
               ==> (end, last) == Drive(config, after, Goes(a.(phase := Filed(policy))), AfterSubmit(x)))
  {
    hide Drive, AfterSubmit, Transition;
    OneCall(config, shared, a, Send(x.freshId));
    DriveStep(config, shared, a, Send(x.freshId), AfterSubmit(x));
  }

  lemma ActivateScheduled(config: Config, shared: Shared, a: Attempt, policy: string, x: Answers)
    requires a.phase == Filed(policy) && policy in shared.pas
    ensures var after := shared.(pas := Transition(shared.pas, policy, Submitted, Active));
            var (end, last) := Drive(config, shared, Goes(a), AfterSubmit(x));
            && (x.activate.Failed? ==> end == shared && last.Goes?)
            && (x.activate.Lost? ==> end == after && last.Goes?)
            && (x.activate.Answered?
               ==> (end, last) == Drive(config, after, Goes(a.(phase := Activated(policy, 0))), AfterActivate(x)))
  {
    hide Drive, AfterActivate, Transition;
    OneCall(config, shared, a, Send(x.freshId));
    DriveStep(config, shared, a, Send(x.freshId), AfterActivate(x));
  }

  /** No call, or one call, of an attempt. */
  lemma OneCall(config: Config, shared: Shared, a: Attempt, call: Call)
    ensures Drive(config, shared, Goes(a), []) == (shared, Goes(a))
    ensures Drive(config, shared, Goes(a), [call]) == Do(config, shared, a, call)
  {
    hide Do, Drive;
    DriveNothing(config, shared, Goes(a));
    assert [call] + [] == [call];
    DriveStep(config, shared, a, call, []);
    var (after, next) := Do(config, shared, a, call);
    DriveNothing(config, after, next);
  }

  lemma PublishScheduled(config: Config, shared: Shared, a: Attempt, policy: string, x: Answers)
    requires a.phase == Activated(policy, 0) && |x.deliveries| >= MaxTries(config)
    ensures var tries := MaxTries(config);
            var after := shared.(events := shared.events + Copies(EventOf(a), Sent(x.deliveries, tries)));
            var published := AnyAnswered(x.deliveries, tries);
            var (end, last) := Drive(config, shared, Goes(a), AfterActivate(x));
            && (!x.commits ==> end == after && last.Goes?)
            && (x.commits ==> (end, last) == CommitBinding(after, a, policy, published) && last.Ends?)
  {
    hide Drive, InsertBinding, AnyAnswered, Sent, Copies;
    var rest := if x.commits then [Commit] else [];
    var after, a' := PublishingEnds(config, shared, a, x.deliveries, rest);
    OneCall(config, after, a', Commit);
    CommitsAlike(after, a, a', policy, a'.phase.success);
  }

  lemma CommitsAlike(shared: Shared, a: Attempt, b: Attempt, policy: string, published: bool)
    requires b == a.(phase := b.phase, delivered := b.delivered)
    ensures CommitBinding(shared, a, policy, published) == CommitBinding(shared, b, policy, published)
  {
    hide InsertBinding;
  }

  // ----- what every request keeps

  lemma Keeps(db: Tables, request: Request)
    ensures History.Valid(db) ==> History.Valid(Committed(db, Route(db, request)))
  {
    hide History.Valid, Route;
    if History.Valid(db) {
      HistoryRuns.RequestKeepsValid(db, request);
    }
  }

  lemma KeepsBoth(config: Config, shared: Shared, id: string, terms: Terms, calls: seq<Call>)
    ensures var end := BindAlone(config, shared, id, terms, calls).0;
            History.Valid(shared.db) && SharedFits(config, shared) ==> History.Valid(end.db) && SharedFits(config, end)
  {
    hide History.Valid, SharedFits, BindAlone;
    if History.Valid(shared.db) && SharedFits(config, shared) {
      BindKeepsBoth(config, shared, id, terms, calls);
    }
  }

  // ----- what each answer says of the stored rows

  lemma IntakeSaid(id: string, intake: Intake, s: Submission)
    requires s == Submission(id, s.at, intake.counterparty, intake.lineOfBusiness, intake.tivEur, intake.occupancy,
                             Upper(intake.country), intake.requestedCover)
    ensures U.HoldsIntake(s, id, intake)
  {
    UpperMeans(intake.country, s.country);
    U.AlikeSymmetric(intake.country, s.country);
  }

  lemma AssessSaid(db: Tables, id: string, actor: string)
    ensures U.Orderly(db) ==> U.AssessAnswers(db, id, actor, Decide(db, id, actor))
  {
    hide Decide, U.AssessAnswers;
    if U.Orderly(db) {
      U.AssessMeans(db, id, actor);
    }
  }

  lemma QuoteSaid(db: Tables, id: string, quoteId: string, actor: string)
    ensures U.Orderly(db) ==> U.QuoteAnswers(db, id, quoteId, actor, PriceQuote(db, id, quoteId, actor))
  {
    hide PriceQuote, U.QuoteAnswers, U.Orderly;
    if U.Orderly(db) {
      U.QuoteMeans(db, id, quoteId, actor);
    }
  }

  lemma GuardSaid(db: Tables, id: string)
    ensures U.Orderly(db) ==> U.GuardAnswers(db, id, GuardBind(db, id))
  {
    hide GuardBind, U.GuardAnswers, U.Orderly;
    if U.Orderly(db) {
      U.GuardMeans(db, id);
    }
  }

  class Workbench {
    var submissions: seq<Submission>
    var decisions: seq<Row<Decision>>
    var quotes: seq<Row<Quote>>
    var bindings: seq<Binding>
    var audit: seq<Row<Audit>>
    var rulesets: seq<Version<A.AppetiteRules>>
    var rateTables: seq<Version<T.RateRules>>
    var clock: nat

    ghost function Db(): Tables
      reads this
    {
      Tables(submissions, decisions, quotes, bindings, audit, rulesets, rateTables, clock)
    }

    constructor ()
      ensures Db() == EMPTY
    {
      submissions, decisions, quotes, bindings, audit := [], [], [], [], [];
      rulesets, rateTables, clock := [], [], 0;
    }

    /** `AuditRepository.append`. */
    method Append(submission: string, actor: string, event: AuditEvent)
      modifies this`audit, this`clock
      ensures Db() == old(Db()).(audit := old(audit) + [Row(submission, old(clock), Audit(actor, event))],
              clock := old(clock) + 1)
    {
      audit := audit + [Row(submission, clock, Audit(actor, event))];
      clock := clock + 1;
    }

    /** `session.get(Submission, id)`. */
    method GetSubmission(id: string) returns (r: Result<Submission, Failure>)
      ensures r == if FindSubmission(submissions, id).Some?
              then Ok(FindSubmission(submissions, id).value) else Err(SubmissionNotFound)
    {
      var found := FindSubmission(submissions, id);
      if found.None? {
        return Err(SubmissionNotFound);
      }
      return Ok(found.value);
    }

    method CreateSubmission(id: string, intake: Intake, actor: string) returns (r: Result<Submission, Failure>)
      modifies this`submissions, this`audit, this`clock
      ensures var spec := Lifecycle.CreateSubmission(old(Db()), id, intake, actor);
              && Db() == Committed(old(Db()), spec)
              && r == if spec.Err? then Err(spec.error) else Ok(Db().submissions[|old(submissions)|])
      ensures r.Ok? ==> U.HoldsIntake(r.value, id, intake)
      ensures old(History.Valid(Db())) ==> History.Valid(Db())
    {
      hide History.Valid, U.HoldsIntake;
      Keeps(Db(), Request.Create(id, intake, actor));
      if FindSubmission(submissions, id).Some? {
        return Err(DuplicateKey);
      }
      var submission := Submission(
        id, clock, intake.counterparty, intake.lineOfBusiness, intake.tivEur, intake.occupancy,
        Upper(intake.country), intake.requestedCover);
      IntakeSaid(id, intake, submission);
      submissions := submissions + [submission];
      clock := clock + 1;
      Append(id, actor, Created(submission.lineOfBusiness, submission.tivEur));
      return Ok(submission);
    }

    method AssessSubmission(id: string, actor: string) returns (r: Result<Decision, Failure>)
      modifies this`decisions, this`audit, this`clock
      ensures Db() == Committed(old(Db()), Lifecycle.AssessSubmission(old(Db()), id, actor))
      ensures r == Decide(old(Db()), id, actor)
      ensures U.Orderly(old(Db())) ==> U.AssessAnswers(old(Db()), id, actor, r)
    {
      hide U.Orderly, U.AssessAnswers, A.IsVerdict;
      AssessSaid(Db(), id, actor);
      var submission :- GetSubmission(id);
      var ruleset := Current(rulesets);
      if ruleset.None? {
        return Err(NoRuleset);
      }
      var facts := A.SubmissionFacts(submission.lineOfBusiness, submission.tivEur, submission.occupancy,
          submission.country);
      var outcome, reasons := A.AssessRisk(facts, A.FromRules(ruleset.value.version, ruleset.value.rules));
      var decision := Decision(outcome, reasons, ruleset.value.version, actor);
      decisions := decisions + [Row(id, clock, decision)];
      clock := clock + 1;
      Append(id, actor, Assessed(decision.appetiteVersion, outcome, reasons));
      return Ok(decision);
    }

    /** `_facts_of`: the flags come from the insured value and the wording of the cover. */
    method FactsOf(s: Submission) returns (facts: R.Facts)
      ensures facts == PricedFacts(s)
      ensures U.PricedOn(s, facts)
    {
      hide U.PricedOn;
      U.FactsMean(s);
      var flags: set<string> := {};
      if s.tivEur > T.HIGH_TIV_THRESHOLD {
        flags := flags + {"high_tiv"};
      }
      if Contains(Lower(s.requestedCover), "sprinkler") {
        flags := flags + {"sprinklered"};
      }
      facts := R.Facts(s.tivEur, s.occupancy, flags, Decimals.ONE);
    }

    method QuoteSubmission(id: string, quoteId: string, actor: string) returns (r: Result<Quote, Failure>)
      modifies this`quotes, this`audit, this`clock
      ensures Db() == Committed(old(Db()), Lifecycle.QuoteSubmission(old(Db()), id, quoteId, actor))
      ensures r == PriceQuote(old(Db()), id, quoteId, actor)
      ensures U.Orderly(old(Db())) ==> U.QuoteAnswers(old(Db()), id, quoteId, actor, r)
    {
      hide R.Price, FindSubmission, Latest, Current, T.FromRules, PricedFacts, D.Str, SortedFlags;
      hide U.Orderly, U.QuoteAnswers, U.PricedOn;
      QuoteSaid(Db(), id, quoteId, actor);
      var submission :- GetSubmission(id);
      var decision := Latest(decisions, id);
      if decision.None? {
        return Err(NoDecision);
      }
      if decision.value.body.outcome == A.Decline {
        return Err(DeclinedRisk);
      }
      var stored := Current(rateTables);
      if stored.None? {
        return Err(NoRateTable);
      }
      var facts := FactsOf(submission);
      var table := T.FromRules(stored.value.version, stored.value.rules);
      if table.None? {
        return Err(UnreadableRateTable);
      }
      var breakdown := R.Rate(facts, table.value);
      if breakdown.Err? {
        return Err(NotPriced(breakdown.error));
      }
      if exists i | 0 <= i < |quotes| :: quotes[i].body.id == quoteId {
        return Err(DuplicateKey);
      }
      var manifest :=
          Manifest(facts.tivEur, facts.occupancy, SortedFlags(facts.flags), D.Str(facts.commercialAdjustment));
      var quote := Quote(quoteId, breakdown.value, manifest, actor);
      quotes := quotes + [Row(id, clock, quote)];
      clock := clock + 1;
      Append(id, actor,
          Quoted(breakdown.value.rateTableVersion, breakdown.value.premiumMinor, breakdown.value.currency));
      return Ok(quote);
    }

    // ----- versions

    method CreateRuleset(version: int, rules: A.AppetiteRules) returns (r: Result<Version<A.AppetiteRules>, Failure>)
      modifies this`rulesets
      ensures Db() == old(Db()).(rulesets := CreateVersion(old(rulesets), version, rules))
      ensures r == if GetVersion(old(rulesets), version).Some? then Err(DuplicateKey) else Ok(Version(version, rules))
      ensures old(History.Valid(Db())) ==> History.Valid(Db())
    {
      hide History.Valid;
      Keeps(Db(), NewRuleset(version, rules));
      if GetVersion(rulesets, version).Some? {
        return Err(DuplicateKey);
      }
      rulesets := rulesets + [Version(version, rules)];
      return Ok(Version(version, rules));
    }

    method CreateRateTable(version: int, rules: T.RateRules) returns (r: Result<Version<T.RateRules>, Failure>)
      modifies this`rateTables
      ensures Db() == old(Db()).(rateTables := CreateVersion(old(rateTables), version, rules))
      ensures r == if GetVersion(old(rateTables), version).Some? then Err(DuplicateKey) else Ok(Version(version, rules))
      ensures old(History.Valid(Db())) ==> History.Valid(Db())
    {
      hide History.Valid;
      Keeps(Db(), NewRateTable(version, rules));
      if GetVersion(rateTables, version).Some? {
        return Err(DuplicateKey);
      }
      rateTables := rateTables + [Version(version, rules)];
      return Ok(Version(version, rules));
    }

    /** `seed_v1` of the rulesets, then `seed_v1` and `seed_v2` of the rate tables, as at every startup. */
    method Startup()
      modifies this`rulesets, this`rateTables
      ensures Db() == Seed(old(Db()))
      ensures old(History.Valid(Db())) ==> History.Valid(Db())
    {
      hide History.Valid;
      Keeps(Db(), Restart);
      if Current(rulesets).None? {
        var _ := CreateRuleset(1, A.V1_RULES);
      }
      if Current(rateTables).None? {
        var _ := CreateRateTable(1, T.V1_RULES);
      }
      if GetVersion(rateTables, 2).None? {
        var _ := CreateRateTable(2, T.V2_RULES);
      }
    }

    // ----- the routes

    /** The assess route: a bound submission is refused before the service runs. */
    method PostAssess(id: string, actor: string) returns (r: Result<Decision, Failure>)
      modifies this`decisions, this`audit, this`clock
      ensures Db() == Committed(old(Db()), Route(old(Db()), Assess(id, actor)))
      ensures r == if BindingOf(old(bindings), id).Some? then Err(AlreadyBound) else Decide(old(Db()), id, actor)
      ensures old(History.Valid(Db())) ==> History.Valid(Db())
    {
      hide History.Valid;
      Keeps(Db(), Assess(id, actor));
      if BindingOf(bindings, id).Some? {
        return Err(AlreadyBound);
      }
      r := AssessSubmission(id, actor);
    }

    /** The quote route. */
    method PostQuote(id: string, quoteId: string, actor: string) returns (r: Result<Quote, Failure>)
      modifies this`quotes, this`audit, this`clock
      ensures Db() == Committed(old(Db()), Route(old(Db()), MakeQuote(id, quoteId, actor)))
      ensures r == if BindingOf(old(bindings), id).Some?
              then Err(AlreadyBound) else PriceQuote(old(Db()), id, quoteId, actor)
      ensures old(History.Valid(Db())) ==> History.Valid(Db())
    {
      hide History.Valid;
      Keeps(Db(), MakeQuote(id, quoteId, actor));
      if BindingOf(bindings, id).Some? {
        return Err(AlreadyBound);
      }
      r := QuoteSubmission(id, quoteId, actor);
    }
  
    // ----- bind

    /** `SqlBindingRepository.add` and the audit entry, refused by the unique keys of the binding table. */
    method AddBinding(quote: Row<Quote>, policyNumber: string, policy: string, published: bool, actor: string)
      returns (r: Result<Binding, Failure>)
      modifies this`bindings, this`audit, this`clock
      ensures var spec := InsertBinding(old(Db()), quote, policyNumber, policy, published, actor);
              && Db() == Committed(old(Db()), spec)
              && r == if spec.Err? then Err(spec.error) else Ok(Db().bindings[|old(bindings)|])
    {
      if exists i | 0 <= i < |bindings| :: bindings[i].submission == quote.submission
          || bindings[i].policyNumber == policyNumber {
        return Err(DuplicateKey);
      }
      var binding := Binding(quote.submission, quote.body.id, policyNumber, policy, "bound", published, clock, actor);
      bindings := bindings + [binding];
      clock := clock + 1;
      Append(quote.submission, actor,
             Bound(policyNumber, policy, quote.body.id, quote.body.price.premiumMinor, quote.body.price.currency,
                 published));
      return Ok(binding);
    }

    /** The reads before the first external call. */
    method ReadForBind(id: string) returns (r: Result<BindGuard, Failure>)
      ensures r == GuardBind(Db(), id)
      ensures U.Orderly(Db()) ==> U.GuardAnswers(Db(), id, r)
    {
      hide U.Orderly, U.GuardAnswers;
      GuardSaid(Db(), id);
      var submission :- GetSubmission(id);
      var existing := BindingOf(bindings, id);
      if existing.Some? {
        return Ok(Returns(existing.value));
      }
      var decision := Latest(decisions, id);
      if decision.None? || decision.value.body.outcome != A.Accept {
        return Err(NoAcceptedDecision);
      }
      var quote := Latest(quotes, id);
      if quote.None? {
        return Err(NoQuote);
      }
      return Ok(Proceeds(quote.value));
    }

    /**
     * `bind_submission`: guards, then create, submit and activate at the policy service, then the
     * publish, whose failure is not a failure of the bind, then the commit of the binding.
     */
    method BindSubmission(config: Config, client: PolicyServiceClient, publisher: BoundRiskPublisher, id: string,
            terms: Terms, x: Answers)
      returns (r: Result<Binding, BindError>)
      requires x.freshId !in client.policies
      requires publisher.maxAttempts == MaxTries(config) && |x.deliveries| >= MaxTries(config)
      modifies this`bindings, this`audit, this`clock, client, publisher
      ensures var (end, last) :=
              BindAlone(config, old(Shared(Db(), client.policies, publisher.log)), id, terms, Schedule(x));
              && Shared(Db(), client.policies, publisher.log) == end
              && r == if last.Goes? then Err(CallFailed) else last.result
    {
      hide Drive, Schedule, AfterCreate, AfterSubmit, AfterActivate, InsertBinding, FindSubmission, Latest, BindingOf;
      hide Taken;
      hide Resolve, Transition, AnyAnswered, Sent, Copies, U.Orderly, U.GuardAnswers;
      ghost var start := Shared(Db(), client.policies, publisher.log);
      var guard := ReadForBind(id);
      if guard.Err? {
        EndsThere(config, start, StartBind(config, start.db, id, terms), Schedule(x));
        return Err(Refused(guard.error));
      }
      if guard.value.Returns? {
        EndsThere(config, start, StartBind(config, start.db, id, terms), Schedule(x));
        return Ok(guard.value.binding);
      }
      var submission, quote := FindSubmission(submissions, id).value, guard.value.quote;
      var number := PolicyNumberFor(config, quote.body.id);
      ghost var a := StartBind(config, start.db, id, terms).attempt;
      assert a == Attempt(submission, quote, number, terms, Guarded, 0);
      CreateScheduled(config, start, a, x);
      var request := Policy(
        number, submission.counterparty, ProductFor(submission.lineOfBusiness), terms.effective, terms.expiry, Draft);
      var policy :- client.CreatePolicy(request, x.freshId, x.page, x.create);
      ghost var created := Shared(Db(), client.policies, publisher.log);
      SubmitScheduled(config, created, a.(phase := Opened(policy)), policy, x);
      var _ :- client.Submit(policy, x.submit);
      ghost var filed := Shared(Db(), client.policies, publisher.log);
      assert policy in filed.pas by { StillThere(created.pas, policy, Draft, Submitted); }
      ActivateScheduled(config, filed, a.(phase := Filed(policy)), policy, x);
      var _ :- client.Activate(policy, x.activate);
      ghost var active := Shared(Db(), client.policies, publisher.log);
      PublishScheduled(config, active, a.(phase := Activated(policy, 0)), policy, x);
      var event := Event(
        number, submission.id, quote.body.id, quote.body.price.premiumMinor, quote.body.price.currency,
        request.product, request.effective, request.expiry);
      var published := publisher.Publish(event, x.deliveries);
      if !x.commits {
        return Err(CallFailed);
      }
      var binding := AddBinding(quote, number, policy, published, terms.actor);
      if binding.Err? {
        return Err(UniqueKey);
      }
      return Ok(binding.value);
    }

    /** The bind route: whatever the calls answered, the history and the three stores stay in order. */
    method PostBind(config: Config, client: PolicyServiceClient, publisher: BoundRiskPublisher, id: string,
            terms: Terms,
        x: Answers)
      returns (r: Result<Binding, BindError>)
      requires x.freshId !in client.policies
      requires publisher.maxAttempts == MaxTries(config) && |x.deliveries| >= MaxTries(config)
      modifies this`bindings, this`audit, this`clock, client, publisher
      ensures var (end, last) :=
              BindAlone(config, old(Shared(Db(), client.policies, publisher.log)), id, terms, Schedule(x));
              && Shared(Db(), client.policies, publisher.log) == end
              && r == if last.Goes? then Err(CallFailed) else last.result
      ensures old(History.Valid(Db()) && SharedFits(config, Shared(Db(), client.policies, publisher.log))) ==>
                History.Valid(Db()) && SharedFits(config, Shared(Db(), client.policies, publisher.log))
    {
      hide History.Valid, SharedFits, BindAlone, Schedule;
      KeepsBoth(config, Shared(Db(), client.policies, publisher.log), id, terms, Schedule(x));
      r := BindSubmission(config, client, publisher, id, terms, x);
    }
  }

  lemma StillThere(pas: Pas, policy: string, from: Status, to: Status)
    requires policy in pas
    ensures policy in Transition(pas, policy, from, to)
  {
  }
}
