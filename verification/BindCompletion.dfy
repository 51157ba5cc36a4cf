/**
 * One bind attempt with nothing else running: when it completes, what it leaves behind, and why asking
 * again changes nothing.
 */
module BindCompletion {
  import opened Wrappers
  import opened Store
  import opened Lifecycle
  import opened History
  import opened BindProtocol
  import opened Publisher
  import opened BindSafety
  import HistoryRuns
  import A = Appetite
  import U = UseCases

  // ----- the calls of an undisturbed attempt

  function Publishes(deliveries: seq<Delivery>): (calls: seq<Call>)
    ensures |calls| == |deliveries|
  {
    if deliveries == [] then [] else [Publish(deliveries[0])] + Publishes(deliveries[1..])
  }

  /** Create (and the lookup, in case create conflicts), submit, activate, the tries at publishing, commit. */
  function Undisturbed(freshId: string, page: seq<string>, deliveries: seq<Delivery>): seq<Call> {
    [Send(freshId), Look(page), Send(freshId), Send(freshId)] + Publishes(deliveries) + [Commit]
  }

  lemma DriveStep(config: Config, shared: Shared, a: Attempt, call: Call, rest: seq<Call>)
    ensures var (shared', next') := Do(config, shared, a, call);
            Drive(config, shared, Goes(a), [call] + rest) == Drive(config, shared', next', rest)
  {
    hide Do;
    assert ([call] + rest)[1..] == rest;
  }

  /** The retry loop puts its copies on the log and ends in a success exactly when some try was answered. */
  lemma {:induction false} PublishingEnds(config: Config, shared: Shared, a: Attempt, deliveries: seq<Delivery>,
          rest: seq<Call>)
    returns (shared': Shared, a': Attempt)
    requires a.phase.Activated? && a.phase.tries < MaxTries(config) && |deliveries| >= MaxTries(config) - a.phase.tries
    ensures Drive(config, shared, Goes(a), Publishes(deliveries) + rest) == Drive(config, shared', Goes(a'), rest)
    ensures shared' == shared.(events := shared'.events) && a' == a.(phase := a'.phase, delivered := a'.delivered)
    ensures a'.phase == Published(a.phase.policy, AnyAnswered(deliveries, MaxTries(config) - a.phase.tries))
    ensures shared'.events == shared.events + Copies(EventOf(a), Sent(deliveries, MaxTries(config) - a.phase.tries))
    ensures a'.delivered == a.delivered + Sent(deliveries, MaxTries(config) - a.phase.tries)
    decreases |deliveries|
  {
    hide Drive;
    var (next, goes) := Do(config, shared, a, Publish(deliveries[0]));
    var others := Publishes(deliveries[1..]) + rest;
    assert Publishes(deliveries) + rest == [Publish(deliveries[0])] + others;
    DriveStep(config, shared, a, Publish(deliveries[0]), others);
    if goes.attempt.phase.Published? {
      Skips(config, next, goes.attempt, deliveries[1..], rest);
      shared', a' := next, goes.attempt;
    } else {
      shared', a' := PublishingEnds(config, next, goes.attempt, deliveries[1..], rest);
      assert forall i :: 1 <= i < |deliveries| ==> deliveries[1..][i - 1] == deliveries[i];
      var n, m := MaxTries(config) - a.phase.tries, MaxTries(config) - a.phase.tries - 1;
      assert !deliveries[0].Delivered?;
      if AnyAnswered(deliveries, n) {
        var i :| 0 <= i < |deliveries| && i < n && deliveries[i].Delivered?;
        assert deliveries[1..][i - 1].Delivered?;
      }
    }
  }

  /** Once the publish is over, further deliveries mean nothing. */
  lemma {:induction false} Skips(config: Config, shared: Shared, a: Attempt, deliveries: seq<Delivery>, rest: seq<Call>)
    requires a.phase.Published?
    ensures Drive(config, shared, Goes(a), Publishes(deliveries) + rest) == Drive(config, shared, Goes(a), rest)
  {
    hide Drive;
    if deliveries == [] {
      assert [] + rest == rest;
    } else {
      var others := Publishes(deliveries[1..]) + rest;
      assert Publishes(deliveries) + rest == [Publish(deliveries[0])] + others;
      DriveStep(config, shared, a, Publish(deliveries[0]), others);
      Skips(config, shared, a, deliveries[1..], rest);
    }
  }

  /** With no binding of the submission and no shared digest, the unique keys accept the row. */
  lemma KeysAreFree(config: Config, shared: Shared, a: Attempt, policy: string, published: bool)
    requires SharedFits(config, shared) && NoCollision(config, shared.db)
    requires Stored(config, shared.db, a.quote, a.submission, a.number)
    requires BindingOf(shared.db.bindings, a.submission.id).None?
    ensures InsertBinding(shared.db, a.quote, a.number, policy, published, a.terms.actor).Ok?
  {
    hide NoCollision, Keyed, PolicyFits, EventFits, NumbersUnique, BindingsUnique, BindingsOf, Announced, Stored;
    var db := shared.db;
    HistoryRuns.UnboundEverywhere(db, a.submission.id);
    forall i | 0 <= i < |db.bindings| ensures db.bindings[i].policyNumber != a.number {
      var b := db.bindings[i];
      assert BindingStands(config, shared, b);
      if b.policyNumber == a.number {
        var q, s :| q in db.quotes && s in db.submissions && Stored(config, db, q, s, b.policyNumber)
                    && b.submission == s.id && b.quote == q.body.id;
        NumberNamesQuote(config, db, q, s, a.quote, a.submission, a.number);
      }
    }
    assert a.quote.submission == a.submission.id by { SubmissionOfQuote(config, db, a); }
  }

  lemma SubmissionOfQuote(config: Config, db: Tables, a: Attempt)
    requires Stored(config, db, a.quote, a.submission, a.number)
    ensures a.quote.submission == a.submission.id
  {
  }

  /** From an opened policy on, an undisturbed attempt commits. */
  lemma FromOpened(config: Config, shared: Shared, a: Attempt, freshId: string,
          deliveries: seq<Delivery>) returns (end: Shared, b: Binding)
    requires SharedFits(config, shared) && AttemptFits(config, shared, a) && a.phase.Opened?
    requires NoCollision(config, shared.db)
    requires BindingOf(shared.db.bindings, a.submission.id).None? && |deliveries| >= MaxTries(config)
    ensures Drive(config, shared, Goes(a), [Send(freshId), Send(freshId)] + Publishes(deliveries) + [Commit])
            == (end, Ends(Ok(b)))
    ensures b == Binding(a.submission.id, a.quote.body.id, a.number, a.phase.policy, "bound",
                         AnyAnswered(deliveries, MaxTries(config)), shared.db.clock, a.terms.actor)
    ensures InsertBinding(shared.db, a.quote, a.number, a.phase.policy, b.eventPublished, a.terms.actor) == Ok(end.db)
    ensures end.db.bindings == shared.db.bindings + [b]
    ensures end.events == shared.events + Copies(EventOf(a), Sent(deliveries, MaxTries(config)))
  {
    hide Drive, SharedFits, NoCollision, Stored, InsertBinding, BindingOf, Taken, Later, AnyAnswered, Sent, Copies;
    SubmissionOfQuote(config, shared.db, a);
    var tail := Publishes(deliveries) + [Commit];
    assert [Send(freshId), Send(freshId)] + Publishes(deliveries) + [Commit]
           == [Send(freshId)] + ([Send(freshId)] + tail);
    DriveStep(config, shared, a, Send(freshId), [Send(freshId)] + tail);
    var (first, filed) := Do(config, shared, a, Send(freshId));
    DriveStep(config, first, filed.attempt, Send(freshId), tail);
    var (second, active) := Do(config, first, filed.attempt, Send(freshId));
    var third, published := PublishingEnds(config, second, active.attempt, deliveries, [Commit]);
    assert [Commit] == [Commit] + [];
    DriveStep(config, third, published, Commit, []);
    KeysAreFree(config, shared, a, a.phase.policy, published.phase.success);
    InsertedRow(shared.db, a, a.phase.policy, published.phase.success);
    var last := Do(config, third, published, Commit);
    end, b := last.0, last.1.result.value;
    DriveNothing(config, end, last.1);
  }

  lemma DriveNothing(config: Config, shared: Shared, next: Next)
    ensures Drive(config, shared, next, []) == (shared, next)
  {
  }

  lemma InsertedRow(db: Tables, a: Attempt, policy: string, published: bool)
    requires InsertBinding(db, a.quote, a.number, policy, published, a.terms.actor).Ok?
    ensures InsertBinding(db, a.quote, a.number, policy, published, a.terms.actor).value.bindings
            == db.bindings + [Binding(a.quote.submission, a.quote.body.id, a.number, policy, "bound", published,
               db.clock, a.terms.actor)]
  {
  }

  // ----- exactly when an undisturbed attempt completes

  lemma {:induction false} DriveFits(config: Config, shared: Shared, next: Next, calls: seq<Call>)
    requires SharedFits(config, shared) && (next.Goes? ==> AttemptFits(config, shared, next.attempt))
    ensures var (end, last) := Drive(config, shared, next, calls);
            SharedFits(config, end) && Later(shared, end) && (last.Goes? ==> AttemptFits(config, end, last.attempt))
    decreases |calls|
  {
    hide SharedFits, AttemptFits, Later, Do;
    LaterSelf(shared);
    if calls != [] && next.Goes? {
      var (shared', next') := Do(config, shared, next.attempt, calls[0]);
      DoFits(config, shared, next.attempt, calls[0]);
      DoIsLater(config, shared, next.attempt, calls[0]);
      DriveFits(config, shared', next', calls[1..]);
      LaterTransitive(shared, shared', Drive(config, shared', next', calls[1..]).0);
    }
  }

  lemma BoundFits(config: Config, shared: Shared, submission: string, terms: Terms, calls: seq<Call>)
    requires SharedFits(config, shared)
    ensures var end := BindAlone(config, shared, submission, terms, calls).0;
            SharedFits(config, end) && Later(shared, end)
  {
    hide SharedFits, Drive, Later, StartBind, AttemptFits;
    if StartBind(config, shared.db, submission, terms).Goes? {
      StartFits(config, shared, submission, terms);
    }
    DriveFits(config, shared, StartBind(config, shared.db, submission, terms), calls);
  }

  /** The lookup of an earlier attempt's policy can succeed: there is none, or the listed page shows it. */
  predicate Findable(pas: Pas, page: seq<string>, number: string) {
    !Taken(pas, number) || exists id :: id in page && id in pas && pas[id].number == number
  }

  /** What an attempt has after its create, and its lookup if there was a conflict. */
  lemma OpensIff(config: Config, shared: Shared, a: Attempt, freshId: string, page: seq<string>, rest: seq<Call>)
    returns (placed: Shared, a': Attempt)
    requires SharedFits(config, shared) && AttemptFits(config, shared, a) && a.phase.Guarded? && freshId !in shared.pas
    ensures Findable(shared.pas, page, a.number) ==>
              && Drive(config, shared, Goes(a), [Send(freshId), Look(page)] + rest)
                 == Drive(config, placed, Goes(a'), rest)
              && placed == shared.(pas := placed.pas) && a' == a.(phase := a'.phase) && a'.phase.Opened?
              && SharedFits(config, placed) && AttemptFits(config, placed, a')
    ensures !Findable(shared.pas, page, a.number) ==>
              Drive(config, shared, Goes(a), [Send(freshId), Look(page)] + rest)
                  == (shared, Ends(Err(PolicyAlreadyExists)))
  {
    hide SharedFits, AttemptFits, Drive, Taken;
    assert [Send(freshId), Look(page)] + rest == [Send(freshId)] + ([Look(page)] + rest);
    DriveStep(config, shared, a, Send(freshId), [Look(page)] + rest);
    DoFits(config, shared, a, Send(freshId));
    var (first, sent) := Do(config, shared, a, Send(freshId));
    DriveStep(config, first, sent.attempt, Look(page), rest);
    DoFits(config, first, sent.attempt, Look(page));
    ResolveFinds(first.pas, page, a.number);
    var (second, looked) := Do(config, first, sent.attempt, Look(page));
    placed, a' := second, if looked.Goes? then looked.attempt else a;
    if looked.Ends? {
      EndsThere(config, second, looked, rest);
    }
  }

  lemma EndsThere(config: Config, shared: Shared, next: Next, calls: seq<Call>)
    requires next.Ends?
    ensures Drive(config, shared, next, calls) == (shared, next)
  {
  }

  /** The row a completed attempt has committed. */
  predicate Completed(config: Config, before: Shared, a: Attempt, deliveries: seq<Delivery>, end: Shared, b: Binding) {
    && b == Binding(a.submission.id, a.quote.body.id, a.number, b.pasPolicyId, "bound",
                    AnyAnswered(deliveries, MaxTries(config)), before.db.clock, a.terms.actor)
    && InsertBinding(before.db, a.quote, a.number, b.pasPolicyId, b.eventPublished, a.terms.actor) == Ok(end.db)
    && end.db.bindings == before.db.bindings + [b]
    && Holds(end.pas, b.pasPolicyId, a.number, Active)
    && end.events == before.events + Copies(EventOf(a), Sent(deliveries, MaxTries(config)))
  }

  /**
   * Whatever earlier attempts left in the policy service, an undisturbed attempt that passes its guards
   * completes exactly when no policy has its number yet or the page of the conflict lookup lists it.
   * Otherwise it fails with the conflict and has changed nothing.
   */
  lemma CompletesIff(config: Config, shared: Shared, submission: string, terms: Terms, freshId: string,
          page: seq<string>,
                     deliveries: seq<Delivery>)
    requires SharedFits(config, shared) && NoCollision(config, shared.db)
    requires StartBind(config, shared.db, submission, terms).Goes?
    requires freshId !in shared.pas && |deliveries| >= MaxTries(config)
    ensures var a := StartBind(config, shared.db, submission, terms).attempt;
            var (end, last) := BindAlone(config, shared, submission, terms, Undisturbed(freshId, page, deliveries));
            && last.Ends?
            && (last.result.Ok? <==> Findable(shared.pas, page, a.number))
            && (last.result.Ok?
               ==> a.submission.id == submission && Completed(config, shared, a, deliveries, end, last.result.value))
            && (last.result.Err? ==> last.result.error == PolicyAlreadyExists && end == shared)
  {
    hide Drive, SharedFits, NoCollision, InsertBinding, Stored, Findable, AnyAnswered, BindingOf, FindSubmission;
    hide Latest, Later, Sent, Copies;
    StartFits(config, shared, submission, terms);
    StartsUnbound(config, shared.db, submission, terms);
    var a := StartBind(config, shared.db, submission, terms).attempt;
    var rest := [Send(freshId), Send(freshId)] + Publishes(deliveries) + [Commit];
    assert Undisturbed(freshId, page, deliveries) == [Send(freshId), Look(page)] + rest;
    var placed, a' := OpensIff(config, shared, a, freshId, page, rest);
    if Findable(shared.pas, page, a.number) {
      var end, b := FromOpened(config, placed, a', freshId, deliveries);
      DriveFits(config, placed, Goes(a'), rest);
      NewestStands(config, end, b);
    }
  }

  lemma NewestStands(config: Config, shared: Shared, b: Binding)
    requires SharedFits(config, shared) && b in shared.db.bindings
    ensures Holds(shared.pas, b.pasPolicyId, b.policyNumber, Active)
  {
    hide Keyed, PolicyFits, EventFits, Stored, Announced, Holds, NumbersUnique, BindingsUnique;
    assert BindingStands(config, shared, b);
  }

  lemma StartsUnbound(config: Config, db: Tables, submission: string, terms: Terms)
    requires StartBind(config, db, submission, terms).Goes?
    ensures var a := StartBind(config, db, submission, terms).attempt;
            && a.submission.id == submission && a.phase == Guarded && a.terms == terms
            && BindingOf(db.bindings, submission).None?
  {
    hide FindSubmission, Latest, BindingOf;
    FoundSubmission(db.submissions, submission);
  }

  /** Binding a bound submission again answers with its binding and touches no store, whatever the calls. */
  lemma AskingAgain(config: Config, shared: Shared, submission: string, terms: Terms, calls: seq<Call>)
    requires FindSubmission(shared.db.submissions, submission).Some? && BindingOf(shared.db.bindings, submission).Some?
    ensures BindAlone(config, shared, submission, terms, calls)
            == (shared, Ends(Ok(BindingOf(shared.db.bindings, submission).value)))
  {
    hide FindSubmission, Latest, BindingOf;
  }

  // ----- the tables of every run are in order

  predicate Ticks(db: Tables) {
    Ticking(db.decisions, db.clock) && Ticking(db.quotes, db.clock)
  }

  lemma TickAppend<X>(rows: seq<Row<X>>, row: Row<X>, clock: nat)
    requires Ticking(rows, row.at) && row.at < clock
    ensures Ticking(rows + [row], clock)
  {
  }

  lemma TickLater<X>(rows: seq<Row<X>>, clock: nat, later: nat)
    requires Ticking(rows, clock) && clock <= later
    ensures Ticking(rows, later)
  {
  }

  lemma ServiceTicks(db: Tables, request: Request)
    requires Ticks(db)
    ensures Ticks(Committed(db, Service(db, request)))
  {
    hide FindSubmission, Latest, Current, GetVersion, Decide, PriceQuote, CreateVersion, Ticking;
    var db' := Committed(db, Service(db, request));
    TickLater(db.decisions, db.clock, db'.clock);
    TickLater(db.quotes, db.clock, db'.clock);
    if Service(db, request).Ok? {
      match request
      case Assess(submission, actor) => TickAppend(db.decisions, db'.decisions[|db.decisions|], db'.clock);
      case MakeQuote(submission, id, actor) => TickAppend(db.quotes, db'.quotes[|db.quotes|], db'.clock);
      case _ =>
    }
  }

  lemma DoTicks(config: Config, shared: Shared, a: Attempt, call: Call)
    requires Ticks(shared.db)
    ensures Ticks(Do(config, shared, a, call).0.db)
  {
    hide Taken, Resolve, Transition, Ticking;
    var db' := Do(config, shared, a, call).0.db;
    assert db'.decisions == shared.db.decisions && db'.quotes == shared.db.quotes && shared.db.clock <= db'.clock;
    TickLater(shared.db.decisions, shared.db.clock, db'.clock);
    TickLater(shared.db.quotes, shared.db.clock, db'.clock);
  }

  lemma {:induction false} RunTicks(config: Config, steps: seq<Step>)
    ensures Ticks(Run(config, START, steps).shared.db)
  {
    hide Ticks, Do, StartBind, Service;
    if steps == [] {
      StartTicks();
    } else {
      RunTicks(config, steps[..|steps| - 1]);
      var w := Run(config, START, steps[..|steps| - 1]);
      match steps[|steps| - 1]
      case Take(key, call) =>
        if key in w.attempts {
          DoTicks(config, w.shared, w.attempts[key], call);
        }
      case Other(request) => ServiceTicks(w.shared.db, request);
      case _ =>
    }
  }

  lemma StartTicks()
    ensures Ticks(START.shared.db)
  {
  }

  /** In every interleaved run keys are unique, rows take their times in order and no submission has two bindings. */
  lemma RunIsOrderly(config: Config, steps: seq<Step>)
    ensures U.Orderly(Run(config, START, steps).shared.db)
  {
    hide Run, Keyed, Ticking, PolicyFits, EventFits, BindingStands, NumbersUnique, AttemptFits;
    RunsAreSafe(config, steps);
    RunTicks(config, steps);
  }

  /** Whatever the calls, a bind that commits answers with a binding of the quote it began with. */
  lemma {:induction false} DriveAnswers(config: Config, shared: Shared, a: Attempt, calls: seq<Call>)
    ensures var (end, last) := Drive(config, shared, Goes(a), calls);
            last.Ends? && last.result.Ok? ==>
              && last.result.value.submission == a.quote.submission && last.result.value.quote == a.quote.body.id
              && last.result.value.policyNumber == a.number && last.result.value.boundBy == a.terms.actor
              && end.db.bindings == shared.db.bindings + [last.result.value]
    decreases |calls|
  {
    hide Taken, Resolve, Transition;
    if calls != [] {
      var (shared', next) := Do(config, shared, a, calls[0]);
      if next.Goes? {
        DriveAnswers(config, shared', next.attempt, calls[1..]);
      }
    }
  }

  /**
   * In every reachable state, whatever its calls: a bind that is answered is answered with a binding of its own
   * submission, stored before or committed now, and it is committed on a quote the submission may be bound on.
   */
  lemma AnswersOwnBinding(config: Config, steps: seq<Step>, submission: string, terms: Terms, calls: seq<Call>)
    requires BindAlone(config, Run(config, START, steps).shared, submission, terms, calls).1.Ends?
    requires BindAlone(config, Run(config, START, steps).shared, submission, terms, calls).1.result.Ok?
    ensures var shared := Run(config, START, steps).shared;
            var (end, last) := BindAlone(config, shared, submission, terms, calls);
            var b := last.result.value;
            && b.submission == submission
            && (b in shared.db.bindings ==> end == shared)
            && (b !in shared.db.bindings ==>
                  && end.db.bindings == shared.db.bindings + [b] && b.boundBy == terms.actor
                  && exists q :: q in shared.db.quotes && U.MayBind(shared.db, submission, q) && b.quote == q.body.id
                                 && b.policyNumber == PolicyNumberFor(config, q.body.id))
  {
    hide Run, Drive, GuardBind, U.MayBind, U.Orderly, FindSubmission, BindingOf, Keyed, BindingsUnique, NumbersUnique;
    hide EventFits, PolicyFits, BindingStands, AttemptFits;
    RunIsOrderly(config, steps);
    var shared := Run(config, START, steps).shared;
    var start := StartBind(config, shared.db, submission, terms);
    U.GuardMeans(shared.db, submission);
    if start.Ends? {
      EndsThere(config, shared, start, calls);
    } else {
      DriveAnswers(config, shared, start.attempt, calls);
      MayBindParts(shared.db, submission, start.attempt.quote);
    }
  }

  lemma MayBindParts(db: Tables, submission: string, q: Row<Quote>)
    requires U.MayBind(db, submission, q)
    ensures q in db.quotes && q.submission == submission
    ensures forall b :: b in db.bindings ==> b.submission != submission
  {
  }

  /**
   * From every reachable state in which a stored, unbound submission has an accepting latest decision and a
   * latest quote, an attempt whose conflict lookup can succeed completes, and leaves the binding of that quote
   * that every later bind returns unchanged.
   */
  lemma BindsOnce(config: Config, steps: seq<Step>, submission: string, quote: Row<Quote>, terms: Terms,
          freshId: string, page: seq<string>, deliveries: seq<Delivery>, terms': Terms, calls: seq<Call>)
    requires var shared := Run(config, START, steps).shared;
             && NoCollision(config, shared.db)
             && U.MayBind(shared.db, submission, quote)
             && freshId !in shared.pas && |deliveries| >= MaxTries(config)
             && Findable(shared.pas, page, PolicyNumberFor(config, quote.body.id))
    ensures var shared := Run(config, START, steps).shared;
            var (end, last) := BindAlone(config, shared, submission, terms, Undisturbed(freshId, page, deliveries));
            && last.Ends? && last.result.Ok?
            && last.result.value.submission == submission && last.result.value.quote == quote.body.id
            && last.result.value.policyNumber == PolicyNumberFor(config, quote.body.id)
            && end.db.bindings == shared.db.bindings + [last.result.value]
            && Holds(end.pas, last.result.value.pasPolicyId, last.result.value.policyNumber, Active)
            && BindAlone(config, end, submission, terms', calls) == (end, last)
  {
    hide Run, SharedFits, NoCollision, Findable, Undisturbed, BindAlone, AnyAnswered, GuardBind, Holds, InsertBinding;
    hide FindSubmission, BindingOf, U.MayBind, U.Orderly, U.GuardAnswers;
    RunsAreSafe(config, steps);
    RunIsOrderly(config, steps);
    var shared := Run(config, START, steps).shared;
    U.GuardMeans(shared.db, submission);
    StartProceeds(config, shared.db, submission, terms);
    CompletesIff(config, shared, submission, terms, freshId, page, deliveries);
    var (end, last) := BindAlone(config, shared, submission, terms, Undisturbed(freshId, page, deliveries));
    NowBound(config, shared, submission, terms, end.db, last.result.value);
    AskingAgain(config, end, submission, terms', calls);
  }

  lemma StartProceeds(config: Config, db: Tables, submission: string, terms: Terms)
    requires GuardBind(db, submission).Ok? && GuardBind(db, submission).value.Proceeds?
    ensures StartBind(config, db, submission, terms).Goes?
    ensures var a, quote := StartBind(config, db, submission, terms).attempt, GuardBind(db, submission).value.quote;
            a.quote == quote && a.number == PolicyNumberFor(config, quote.body.id)
  {
    hide FindSubmission, Latest, BindingOf;
  }

  lemma NowBound(config: Config, shared: Shared, submission: string, terms: Terms, db: Tables, b: Binding)
    requires StartBind(config, shared.db, submission, terms).Goes?
    requires var a := StartBind(config, shared.db, submission, terms).attempt;
             InsertBinding(shared.db, a.quote, a.number, b.pasPolicyId, b.eventPublished, a.terms.actor) == Ok(db)
    requires db.bindings == shared.db.bindings + [b] && b.submission == submission
    ensures FindSubmission(db.submissions, submission).Some? && BindingOf(db.bindings, submission) == Some(b)
  {
    hide FindSubmission, Latest, BindingsOf;
    StartsUnbound(config, shared.db, submission, terms);
    BindingsAppend(shared.db.bindings, b, submission);
  }
}
