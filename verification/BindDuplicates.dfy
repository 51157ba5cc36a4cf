/**
 * One policy per quote, but not one per submission: a quote made between a dead bind and its retry
 * gives the retry another number, and the first policy stays behind. Exactly when that happens.
 */
module BindDuplicates {
  import opened Wrappers
  import opened Store
  import opened Lifecycle
  import opened History
  import opened BindProtocol
  import opened Publisher
  import opened BindSafety
  import opened BindSerial
  import opened BindCompletion
  import A = Appetite
  import T = RatingTables
  import R = RatingEngine
  import V2 = RatingV2
  import HistoryRuns

  /** The policy carries the number of one of the submission's quotes. */
  predicate BelongsTo(config: Config, db: Tables, p: Policy, submission: string) {
    exists q :: q in db.quotes && q.submission == submission && p.number == PolicyNumberFor(config, q.body.id)
  }

  predicate OnePolicyFor(config: Config, shared: Shared, submission: string) {
    forall x, y | x in shared.pas && y in shared.pas ::
      && BelongsTo(config, shared.db, shared.pas[x], submission)
      && BelongsTo(config, shared.db, shared.pas[y], submission)
      ==> x == y
  }

  /**
   * A create keeps one policy per submission exactly when its own number already has a policy or the
   * submission has none under the number of any of its quotes: something a caller could look up first.
   */
  lemma SecondPolicyIff(config: Config, shared: Shared, a: Attempt, freshId: string)
    requires SharedFits(config, shared) && AttemptFits(config, shared, a) && a.phase.Guarded? && freshId !in shared.pas
    requires OnePolicyFor(config, shared, a.submission.id)
    ensures OnePolicyFor(config, Do(config, shared, a, Send(freshId)).0, a.submission.id) <==>
            Taken(shared.pas, a.number)
            || forall id :: id in shared.pas ==> !BelongsTo(config, shared.db, shared.pas[id], a.submission.id)
  {
    hide SharedFits, BelongsTo, PhaseFits;
    var after := Do(config, shared, a, Send(freshId)).0;
    if !Taken(shared.pas, a.number) {
      OwnPolicy(config, shared.db, a);
      assert after.pas[freshId] == PolicyOf(a);
      assert forall id :: id in shared.pas ==> id in after.pas && after.pas[id] == shared.pas[id];
      if id :| id in shared.pas && BelongsTo(config, shared.db, shared.pas[id], a.submission.id) {
        assert id in after.pas && freshId in after.pas && id != freshId;
      }
    }
  }

  lemma OwnPolicy(config: Config, db: Tables, a: Attempt)
    requires Stored(config, db, a.quote, a.submission, a.number)
    ensures BelongsTo(config, db, PolicyOf(a), a.submission.id)
  {
  }

  // ----- a dead bind, a new quote, a bind

  /** An attempt that dies after its event went out, before its commit. */
  function Dying(freshId: string): seq<Call> {
    [Send(freshId), Send(freshId), Send(freshId), Publish(Delivered)]
  }

  lemma DiesActive(config: Config, shared: Shared, a: Attempt, freshId: string)
    requires a.phase.Guarded? && !Taken(shared.pas, a.number) && freshId !in shared.pas
    ensures Drive(config, shared, Goes(a), Dying(freshId)).0
            == shared.(pas := shared.pas[freshId := PolicyOf(a).(status := Active)],
               events := shared.events + [EventOf(a)])
  {
    hide Drive, Taken;
    var calls := Dying(freshId);
    assert calls == [Send(freshId)] + ([Send(freshId)] + ([Send(freshId)] + ([Publish(Delivered)] + [])));
    DriveStep(config, shared, a, Send(freshId), [Send(freshId)] + ([Send(freshId)] + ([Publish(Delivered)] + [])));
    var (s1, a1) := Do(config, shared, a, Send(freshId));
    DriveStep(config, s1, a1.attempt, Send(freshId), [Send(freshId)] + ([Publish(Delivered)] + []));
    var (s2, a2) := Do(config, s1, a1.attempt, Send(freshId));
    DriveStep(config, s2, a2.attempt, Send(freshId), [Publish(Delivered)] + []);
    var (s3, a3) := Do(config, s2, a2.attempt, Send(freshId));
    DriveStep(config, s3, a3.attempt, Publish(Delivered), []);
    var (s4, a4) := Do(config, s3, a3.attempt, Publish(Delivered));
    DriveNothing(config, s4, a4);
    assert s4.pas == shared.pas[freshId := PolicyOf(a).(status := Active)];
  }

  /** After a quote, the bind guard answers with that quote. */
  lemma QuoteIsNext(db: Tables, submission: string, id: string, actor: string)
    requires Chronological(db) && GuardBind(db, submission).Ok? && GuardBind(db, submission).value.Proceeds?
    requires PriceQuote(db, submission, id, actor).Ok?
    ensures Route(db, MakeQuote(submission, id, actor)).Ok?
    ensures var db' := Route(db, MakeQuote(submission, id, actor)).value;
            && db'.submissions == db.submissions && db'.bindings == db.bindings && db.quotes <= db'.quotes
            && GuardBind(db', submission)
               == Ok(Proceeds(Row(submission, db.clock, PriceQuote(db, submission, id, actor).value)))
  {
    hide FindSubmission, Latest, BindingOf, PriceQuote;
    var row := Row(submission, db.clock, PriceQuote(db, submission, id, actor).value);
    LatestAppend(db.quotes, row, submission, db.clock);
  }

  lemma QuoteHasItsId(db: Tables, submission: string, id: string, actor: string)
    requires PriceQuote(db, submission, id, actor).Ok?
    ensures PriceQuote(db, submission, id, actor).value.id == id
  {
    hide FindSubmission, Latest, Current, T.FromRules, PricedFacts, ManifestOf, R.Price;
  }

  /** A new quote's number is not in the policy service yet. */
  lemma NewNumberIsFree(config: Config, shared: Shared, db: Tables, row: Row<Quote>)
    requires SharedFits(config, shared) && NoCollision(config, db) && shared.db.quotes <= db.quotes && row in db.quotes
    requires forall i :: 0 <= i < |shared.db.quotes| ==> shared.db.quotes[i].body.id != row.body.id
    ensures !Taken(shared.pas, PolicyNumberFor(config, row.body.id))
  {
    hide Keyed, EventFits, BindingStands, NumbersUnique, BindingsUnique;
    forall id | id in shared.pas ensures shared.pas[id].number != PolicyNumberFor(config, row.body.id) {
      assert PolicyFits(config, shared, shared.pas[id]);
      var q, s :| q in shared.db.quotes && s in shared.db.submissions
          && Stored(config, shared.db, q, s, shared.pas[id].number)
                  && shared.pas[id].holder == s.counterparty;
      var i :| 0 <= i < |shared.db.quotes| && shared.db.quotes[i] == q;
      assert db.quotes[i] == q;
    }
  }

  /** The bind after the new quote opens a policy of its own. */
  lemma SecondBinds(config: Config, before: Shared, shared: Shared, submission: string, terms: Terms, q: string,
                    deliveries: seq<Delivery>, row: Row<Quote>)
    requires SharedFits(config, before) && SharedFits(config, shared) && NoCollision(config, shared.db)
    requires before.pas == shared.pas && before.db.quotes <= shared.db.quotes
    requires forall i :: 0 <= i < |before.db.quotes| ==> before.db.quotes[i].body.id != row.body.id
    requires GuardBind(shared.db, submission) == Ok(Proceeds(row)) && q !in shared.pas
    requires |deliveries| >= MaxTries(config)
    ensures var end := Handle(config, shared, BindRequest(submission, terms, Undisturbed(q, [], deliveries)));
            && shared.db.quotes <= end.db.quotes && PasLater(shared.pas, end.pas) && shared.events <= end.events
            && |end.db.bindings| == |shared.db.bindings| + 1
            && var b := end.db.bindings[|shared.db.bindings|];
            && b.submission == submission && b.quote == row.body.id
            && b.policyNumber == PolicyNumberFor(config, row.body.id)
            && Holds(end.pas, b.pasPolicyId, b.policyNumber, Active)
            && row in shared.db.quotes && row.submission == submission
  {
    hide SharedFits, GuardBind, NoCollision, Taken, Undisturbed, BindAlone, PasLater;
    hide InsertBinding, FindSubmission, AnyAnswered, Stored, BindingOf, Holds;
    StartProceeds(config, shared.db, submission, terms);
    GuardedIsStored(shared.db, submission);
    NewNumberIsFree(config, before, shared.db, row);
    FindableIfFree(shared.pas, [], PolicyNumberFor(config, row.body.id));
    CompletesIff(config, shared, submission, terms, q, [], deliveries);
    BoundFits(config, shared, submission, terms, Undisturbed(q, [], deliveries));
  }

  /** The three requests: a bind that dies after its event, another quote, and an undisturbed bind. */
  function QuotedInBetween(submission: string, terms: Terms, p: string, quoteId: string, actor: string, q: string,
          deliveries: seq<Delivery>)
    : seq<Request'>
  {
    [BindRequest(submission, terms, Dying(p)), Ask(MakeQuote(submission, quoteId, actor)),
     BindRequest(submission, terms, Undisturbed(q, [], deliveries))]
  }

  lemma ThreeRequests(config: Config, shared: Shared, a: Request', b: Request', c: Request')
    ensures Serve(config, shared, [a, b, c]) == Handle(config, Handle(config, Handle(config, shared, a), b), c)
  {
    hide Handle;
    assert [a, b, c][..2] == [a, b] && [a, b][..1] == [a] && [a][..0] == [];
    assert Serve(config, shared, [a]) == Handle(config, shared, a);
    assert Serve(config, shared, [a, b]) == Handle(config, Handle(config, shared, a), b);
  }

  lemma FirstDies(config: Config, shared: Shared, submission: string, terms: Terms, p: string)
    requires SharedFits(config, shared) && StartBind(config, shared.db, submission, terms).Goes?
    requires var a := StartBind(config, shared.db, submission, terms).attempt; !Taken(shared.pas, a.number)
    requires p !in shared.pas
    ensures var a := StartBind(config, shared.db, submission, terms).attempt;
            var s1 := Handle(config, shared, BindRequest(submission, terms, Dying(p)));
            && s1.db == shared.db && SharedFits(config, s1)
            && Holds(s1.pas, p, a.number, Active) && s1.pas.Keys == shared.pas.Keys + {p}
            && EventOf(a) in s1.events
  {
    hide SharedFits, Drive, Taken, Later, Stored, FindSubmission, Latest, BindingOf, Dying;
    StartFits(config, shared, submission, terms);
    StartsUnbound(config, shared.db, submission, terms);
    var a := StartBind(config, shared.db, submission, terms).attempt;
    DiesActive(config, shared, a, p);
    DriveFits(config, shared, Goes(a), Dying(p));
  }

  lemma HeldIsTaken(pas: Pas, policy: string, number: string)
    requires Holds(pas, policy, number, Active)
    ensures Taken(pas, number)
  {
  }

  lemma NotListed(pas: Pas, number: string)
    requires Taken(pas, number)
    ensures !Findable(pas, [], number)
  {
  }

  /**
   * After a bind that died past its create, a retry whose lookup page does not show the policy fails with
   * the conflict, every time, and changes nothing: the policy stays active and the risk stays unbound.
   */
  lemma RetryMissesItsPolicy(config: Config, shared: Shared, submission: string, terms: Terms, p: string, q: string,
                             deliveries: seq<Delivery>)
    requires SharedFits(config, shared) && NoCollision(config, shared.db)
    requires StartBind(config, shared.db, submission, terms).Goes?
    requires !Taken(shared.pas, StartBind(config, shared.db, submission, terms).attempt.number)
    requires p !in shared.pas && q !in shared.pas && p != q && |deliveries| >= MaxTries(config)
    ensures var a := StartBind(config, shared.db, submission, terms).attempt;
            var dead := Handle(config, shared, BindRequest(submission, terms, Dying(p)));
            && dead.db == shared.db && Holds(dead.pas, p, a.number, Active) && EventOf(a) in dead.events
            && BindAlone(config, dead, submission, terms, Undisturbed(q, [], deliveries))
               == (dead, Ends(Err(PolicyAlreadyExists)))
  {
    hide SharedFits, NoCollision, Taken, Handle, Undisturbed, BindAlone, Holds, StartBind, Findable, InsertBinding;
    FirstDies(config, shared, submission, terms, p);
    var a := StartBind(config, shared.db, submission, terms).attempt;
    var dead := Handle(config, shared, BindRequest(submission, terms, Dying(p)));
    HeldIsTaken(dead.pas, p, a.number);
    NotListed(dead.pas, a.number);
    CompletesIff(config, dead, submission, terms, q, [], deliveries);
  }

  lemma Requoted(config: Config, shared: Shared, submission: string, quoteId: string, actor: string)
    requires SharedFits(config, shared) && Route(shared.db, MakeQuote(submission, quoteId, actor)).Ok?
    ensures var s2 := Handle(config, shared, Ask(MakeQuote(submission, quoteId, actor)));
            s2 == shared.(db := Route(shared.db, MakeQuote(submission, quoteId, actor)).value) && SharedFits(config, s2)
  {
    hide SharedFits, Route, Service;
    RouteIsService(shared.db, MakeQuote(submission, quoteId, actor));
    OtherFits(config, shared, MakeQuote(submission, quoteId, actor));
  }

  lemma GuardedIsStored(db: Tables, submission: string)
    requires GuardBind(db, submission).Ok? && GuardBind(db, submission).value.Proceeds?
    ensures GuardBind(db, submission).value.quote in db.quotes
            && GuardBind(db, submission).value.quote.submission == submission
  {
    hide FindSubmission, Latest, BindingOf;
    LatestFound(db.quotes, submission);
  }

  lemma FindableIfFree(pas: Pas, page: seq<string>, number: string)
    requires !Taken(pas, number)
    ensures Findable(pas, page, number)
  {
  }

  lemma NumbersDiffer(config: Config, db: Tables, q: Row<Quote>, r: Row<Quote>)
    requires NoCollision(config, db) && q in db.quotes && r in db.quotes && q.body.id != r.body.id
    ensures PolicyNumberFor(config, q.body.id) != PolicyNumberFor(config, r.body.id)
  {
    var i :| 0 <= i < |db.quotes| && db.quotes[i] == q;
    var j :| 0 <= j < |db.quotes| && db.quotes[j] == r;
  }

  lemma TwoPolicies(config: Config, shared: Shared, submission: string, x: string, y: string, q: Row<Quote>,
          r: Row<Quote>)
    requires x in shared.pas && y in shared.pas && x != y && q in shared.db.quotes && r in shared.db.quotes
    requires q.submission == submission == r.submission
    requires shared.pas[x].number == PolicyNumberFor(config, q.body.id)
    requires shared.pas[y].number == PolicyNumberFor(config, r.body.id)
    ensures !OnePolicyFor(config, shared, submission)
  {
    assert BelongsTo(config, shared.db, shared.pas[x], submission);
    assert BelongsTo(config, shared.db, shared.pas[y], submission);
  }

  /**
   * From any state a bind may start in and where a further quote succeeds, those three requests leave
   * two active policies of one submission, the first with an event on the log and no binding.
   */
  lemma QuoteInBetweenLeavesAPolicy(config: Config, shared: Shared, submission: string, terms: Terms, p: string,
          quoteId: string,
                                    actor: string, q: string, deliveries: seq<Delivery>)
    requires SharedFits(config, shared) && Chronological(shared.db)
    requires GuardBind(shared.db, submission).Ok? && GuardBind(shared.db, submission).value.Proceeds?
    requires PriceQuote(shared.db, submission, quoteId, actor).Ok?
    requires !Taken(shared.pas, StartBind(config, shared.db, submission, terms).attempt.number)
    requires p !in shared.pas && q !in shared.pas && p != q && |deliveries| >= MaxTries(config)
    requires NoCollision(config, Route(shared.db, MakeQuote(submission, quoteId, actor)).value)
    ensures var first := StartBind(config, shared.db, submission, terms).attempt;
            var end := Serve(config, shared, QuotedInBetween(submission, terms, p, quoteId, actor, q, deliveries));
            && |end.db.bindings| == |shared.db.bindings| + 1
            && var b := end.db.bindings[|shared.db.bindings|];
            && b.submission == submission && b.quote == quoteId != first.quote.body.id
            && Holds(end.pas, p, first.number, Active) && Holds(end.pas, b.pasPolicyId, b.policyNumber, Active)
            && b.policyNumber == PolicyNumberFor(config, quoteId) != first.number && b.pasPolicyId != p
            && EventOf(first) in end.events
            && !OnePolicyFor(config, end, submission)
  {
    hide SharedFits, GuardBind, PriceQuote, NoCollision, Serve, Route, Taken, Chronological, OnePolicyFor;
    hide Undisturbed, Drive, BindAlone;
    hide InsertBinding, FindSubmission, AnyAnswered, Stored, BindingOf;
    var requests := QuotedInBetween(submission, terms, p, quoteId, actor, q, deliveries);
    ThreeRequests(config, shared, requests[0], requests[1], requests[2]);
    var s1 := Handle(config, shared, requests[0]);
    var s2 := Handle(config, s1, requests[1]);
    var end := Handle(config, s2, requests[2]);
    StartProceeds(config, shared.db, submission, terms);
    StartFits(config, shared, submission, terms);
    StartsUnbound(config, shared.db, submission, terms);
    var first := StartBind(config, shared.db, submission, terms).attempt;
    FirstDies(config, shared, submission, terms, p);
    QuoteIsNext(shared.db, submission, quoteId, actor);
    QuoteHasItsId(shared.db, submission, quoteId, actor);
    Requoted(config, s1, submission, quoteId, actor);
    var row := Row(submission, shared.db.clock, PriceQuote(shared.db, submission, quoteId, actor).value);
    GuardedIsStored(shared.db, submission);
    FreshQuote(shared.db, submission, quoteId, actor);
    SecondBinds(config, s1, s2, submission, terms, q, deliveries, row);
    NumbersDiffer(config, s2.db, first.quote, row);
    TwoPolicies(config, end, submission, p, end.db.bindings[|shared.db.bindings|].pasPolicyId, first.quote, row);
  }
}
