/**
 * Safety of binding over every run: overlapping attempts, deaths between any two external steps, and
 * assessments, quotes and new versions in between.
 */
module BindSafety {
  import opened Wrappers
  import opened Store
  import opened Lifecycle
  import opened History
  import HistoryRuns
  import opened BindProtocol
  import opened Publisher
  import A = Appetite
  import T = RatingTables

  // ----- what only grows

  function Rank(status: Status): nat {
    match status
    case Draft => 0
    case Submitted => 1
    case Active => 2
  }

  /** Every policy stays what it was, and its status only moves forward. */
  predicate PasLater(p: Pas, q: Pas) {
    forall id :: id in p ==>
      id in q && q[id] == p[id].(status := q[id].status) && Rank(p[id].status) <= Rank(q[id].status)
  }

  predicate Later(a: Shared, b: Shared) {
    && a.db.submissions <= b.db.submissions && a.db.quotes <= b.db.quotes && a.db.bindings <= b.db.bindings
    && a.events <= b.events
    && PasLater(a.pas, b.pas)
  }

  // ----- the invariant

  /** The policy is there, carries the number, and has come at least this far. */
  predicate Holds(pas: Pas, policy: string, number: string, least: Status) {
    policy in pas && pas[policy].number == number && Rank(pas[policy].status) >= Rank(least)
  }

  /** A stored quote of a stored submission, under the number derived from the quote. */
  predicate Stored(config: Config, db: Tables, q: Row<Quote>, s: Submission, number: string) {
    q in db.quotes && s in db.submissions && q.submission == s.id && number == PolicyNumberFor(config, q.body.id)
  }

  predicate PhaseFits(config: Config, shared: Shared, a: Attempt) {
    match a.phase
    case Guarded => a.delivered == 0
    case Conflicted => a.delivered == 0 && Taken(shared.pas, a.number)
    case Opened(p) => a.delivered == 0 && Holds(shared.pas, p, a.number, Draft)
    case Filed(p) => a.delivered == 0 && Holds(shared.pas, p, a.number, Submitted)
    case Activated(p, tries) => a.delivered <= tries < MaxTries(config) && Holds(shared.pas, p, a.number, Active)
    case Published(p, success) =>
      && a.delivered <= MaxTries(config) && Holds(shared.pas, p, a.number, Active)
      && (success ==> EventOf(a) in shared.events)
  }

  predicate AttemptFits(config: Config, shared: Shared, a: Attempt) {
    Stored(config, shared.db, a.quote, a.submission, a.number) && PhaseFits(config, shared, a)
  }

  predicate Describes(e: Event, q: Row<Quote>, s: Submission) {
    && e.submission == s.id && e.quote == q.body.id
    && e.premiumMinor == q.body.price.premiumMinor && e.currency == q.body.price.currency
    && e.product == ProductFor(s.lineOfBusiness)
  }

  predicate ActiveUnder(pas: Pas, number: string) {
    exists id :: id in pas && Holds(pas, id, number, Active)
  }

  /** The event describes a stored quote, and the policy under its number is active. */
  predicate EventFits(config: Config, shared: Shared, e: Event) {
    && ActiveUnder(shared.pas, e.policyNumber)
    && exists q, s :: q in shared.db.quotes && s in shared.db.submissions
                      && Stored(config, shared.db, q, s, e.policyNumber) && Describes(e, q, s)
  }

  /** The policy was opened for a stored quote of a stored submission. */
  predicate PolicyFits(config: Config, shared: Shared, p: Policy) {
    exists q, s :: q in shared.db.quotes && s in shared.db.submissions
                   && Stored(config, shared.db, q, s, p.number)
                   && p.holder == s.counterparty && p.product == ProductFor(s.lineOfBusiness)
  }

  /**
   * The binding names a stored quote of its own submission, carries the number of that quote, and points
   * to an active policy with that number; if it says its event was published, the event is on the log.
   */
  predicate BindingStands(config: Config, shared: Shared, b: Binding) {
    && b.status == "bound"
    && Holds(shared.pas, b.pasPolicyId, b.policyNumber, Active)
    && exists q, s :: q in shared.db.quotes && s in shared.db.submissions
                      && Stored(config, shared.db, q, s, b.policyNumber)
                      && b.submission == s.id && b.quote == q.body.id
                      && (b.eventPublished ==> Announced(shared.events, b.policyNumber, q, s))
  }

  predicate Announced(events: seq<Event>, number: string, q: Row<Quote>, s: Submission) {
    exists e :: e in events && e.policyNumber == number && Describes(e, q, s)
  }

  predicate BindingsUnique(bindings: seq<Binding>) {
    forall i, j :: 0 <= i < j < |bindings| ==>
      bindings[i].submission != bindings[j].submission && bindings[i].policyNumber != bindings[j].policyNumber
  }

  predicate NumbersUnique(pas: Pas) {
    forall x, y :: x in pas && y in pas && x != y ==> pas[x].number != pas[y].number
  }

  predicate SharedFits(config: Config, shared: Shared) {
    && Keyed(shared.db)
    && BindingsUnique(shared.db.bindings) && NumbersUnique(shared.pas)
    && (forall id :: id in shared.pas ==> PolicyFits(config, shared, shared.pas[id]))
    && (forall e :: e in shared.events ==> EventFits(config, shared, e))
    && (forall b :: b in shared.db.bindings ==> BindingStands(config, shared, b))
  }

  predicate Inv(config: Config, w: World) {
    && SharedFits(config, w.shared)
    && forall k :: k in w.attempts ==> AttemptFits(config, w.shared, w.attempts[k])
  }

  // ----- what fits keeps fitting

  lemma LaterSelf(shared: Shared)
    ensures Later(shared, shared)
  {
  }

  lemma LaterTransitive(a: Shared, b: Shared, c: Shared)
    requires Later(a, b) && Later(b, c)
    ensures Later(a, c)
  {
  }

  lemma AttemptStays(config: Config, a: Attempt, before: Shared, after: Shared)
    requires AttemptFits(config, before, a) && Later(before, after)
    ensures AttemptFits(config, after, a)
  {
  }

  lemma PolicyStays(config: Config, p: Policy, before: Shared, after: Shared)
    requires PolicyFits(config, before, p) && Later(before, after)
    ensures PolicyFits(config, after, p)
  {
    var q, s :| q in before.db.quotes && s in before.db.submissions && Stored(config, before.db, q, s, p.number)
                && p.holder == s.counterparty && p.product == ProductFor(s.lineOfBusiness);
    assert q in after.db.quotes && s in after.db.submissions && Stored(config, after.db, q, s, p.number);
  }

  lemma EventStays(config: Config, e: Event, before: Shared, after: Shared)
    requires EventFits(config, before, e) && Later(before, after)
    ensures EventFits(config, after, e)
  {
    var q, s :| q in before.db.quotes && s in before.db.submissions && Stored(config, before.db, q, s, e.policyNumber)
                && Describes(e, q, s);
    assert q in after.db.quotes && s in after.db.submissions && Stored(config, after.db, q, s, e.policyNumber);
    var id :| id in before.pas && Holds(before.pas, id, e.policyNumber, Active);
    assert id in after.pas && Holds(after.pas, id, e.policyNumber, Active);
  }

  lemma BindingStays(config: Config, b: Binding, before: Shared, after: Shared)
    requires BindingStands(config, before, b) && Later(before, after)
    ensures BindingStands(config, after, b)
  {
    var q, s :| q in before.db.quotes && s in before.db.submissions && Stored(config, before.db, q, s, b.policyNumber)
                && b.submission == s.id && b.quote == q.body.id
                && (b.eventPublished ==> Announced(before.events, b.policyNumber, q, s));
    assert q in after.db.quotes && s in after.db.submissions && Stored(config, after.db, q, s, b.policyNumber);
    if b.eventPublished {
      var e :| e in before.events && e.policyNumber == b.policyNumber && Describes(e, q, s);
      assert e in after.events;
    }
  }

  /** An attempt accounts for every event it puts on the log, each with its own terms; nothing else adds events. */
  lemma DeliveredCounts(config: Config, shared: Shared, a: Attempt, call: Call)
    ensures var (after, next) := Do(config, shared, a, call);
            && (next.Ends? ==> after.events == shared.events)
            && (next.Goes? ==>
                  && next.attempt == a.(phase := next.attempt.phase, delivered := next.attempt.delivered)
                  && next.attempt.delivered >= a.delivered
                  && after.events == shared.events + Copies(EventOf(a), next.attempt.delivered - a.delivered))
  {
    hide Taken, Resolve, Transition, InsertBinding;
    assert shared.events + Copies(EventOf(a), 0) == shared.events;
    assert Copies(EventOf(a), 1) == [EventOf(a)];
  }

  // ----- other requests

  lemma ServiceKeepsKeys(db: Tables, request: Request)
    requires Keyed(db)
    ensures var db' := Committed(db, Service(db, request));
            && Keyed(db') && db.submissions <= db'.submissions && db.quotes <= db'.quotes && db.bindings == db'.bindings
  {
    hide FindSubmission, GetVersion, CreateVersion, Current, Decide, PriceQuote;
    if Service(db, request).Ok? {
      match request
      case Create(id, intake, actor) =>
        HistoryRuns.SubmissionsKeyed(db, Service(db, request).value.submissions[|db.submissions|]);
      case Assess(submission, actor) =>
      case MakeQuote(submission, id, actor) => FreshQuote(db, submission, id, actor);
      case NewRuleset(version, rules) => HistoryRuns.VersionKept(db.rulesets, version, rules);
      case NewRateTable(version, rules) => HistoryRuns.VersionKept(db.rateTables, version, rules);
      case Restart => SeedKeepsKeys(db);
    }
  }

  lemma FreshQuote(db: Tables, submission: string, id: string, actor: string)
    requires PriceQuote(db, submission, id, actor).Ok?
    ensures forall i :: 0 <= i < |db.quotes| ==> db.quotes[i].body.id != PriceQuote(db, submission, id, actor).value.id
  {
    hide FindSubmission, Latest, Current, T.FromRules, PricedFacts, ManifestOf;
  }

  lemma SeedKeepsKeys(db: Tables)
    requires Keyed(db)
    ensures Keyed(Seed(db)) && Seed(db) == db.(rulesets := Seed(db).rulesets, rateTables := Seed(db).rateTables)
  {
    hide CreateVersion, Current, GetVersion;
    HistoryRuns.VersionKept(db.rulesets, 1, A.V1_RULES);
    HistoryRuns.VersionKept(db.rateTables, 1, T.V1_RULES);
    HistoryRuns.VersionKept(db.rateTables, 2, T.V2_RULES);
    HistoryRuns.VersionKept(CreateVersion(db.rateTables, 1, T.V1_RULES), 2, T.V2_RULES);
  }

  // ----- one external step

  lemma TransitionIsLater(pas: Pas, id: string, from: Status, to: Status)
    requires id in pas && Rank(from) <= Rank(to)
    ensures PasLater(pas, Transition(pas, id, from, to))
  {
  }

  lemma InsertIsLater(db: Tables, a: Attempt, policy: string, published: bool)
    requires InsertBinding(db, a.quote, a.number, policy, published, a.terms.actor).Ok?
    ensures var after := InsertBinding(db, a.quote, a.number, policy, published, a.terms.actor).value;
            after.submissions == db.submissions && after.quotes == db.quotes && db.bindings <= after.bindings
  {
  }

  lemma DoIsLater(config: Config, shared: Shared, a: Attempt, call: Call)
    ensures Later(shared, Do(config, shared, a, call).0)
  {
    hide Taken, Resolve, Transition, PasLater, InsertBinding;
    PasLaterSelf(shared.pas);
    match (a.phase, call)
    case (Guarded, Send(freshId)) => AddIsLater(shared.pas, freshId, PolicyOf(a));
    case (Opened(policy), Send(_)) =>
      if policy in shared.pas { TransitionIsLater(shared.pas, policy, Draft, Submitted); }
    case (Filed(policy), Send(_)) =>
      if policy in shared.pas { TransitionIsLater(shared.pas, policy, Submitted, Active); }
    case (Published(policy, success), Commit) =>
      if InsertBinding(shared.db, a.quote, a.number, policy, success, a.terms.actor).Ok? {
        InsertIsLater(shared.db, a, policy, success);
      }
    case _ =>
  }

  lemma PasLaterSelf(pas: Pas)
    ensures PasLater(pas, pas)
  {
  }

  lemma AddIsLater(pas: Pas, freshId: string, policy: Policy)
    ensures freshId !in pas ==> PasLater(pas, pas[freshId := policy])
  {
  }

  lemma OpenFits(config: Config, shared: Shared, a: Attempt, freshId: string)
    requires SharedFits(config, shared) && AttemptFits(config, shared, a) && a.phase.Guarded?
    ensures var (shared', next) := Open(shared, a, freshId);
            SharedFits(config, shared') && next.Goes? && AttemptFits(config, shared', next.attempt)
  {
    hide EventFits, BindingStands, PolicyFits, Keyed, BindingsUnique;
    var shared' := Open(shared, a, freshId).0;
    DoIsLater(config, shared, a, Send(freshId));
    StaysAll(config, shared, shared');
    AttemptStays(config, a, shared, shared');
    if shared'.pas != shared.pas {
      OpenedFits(config, shared', a);
    }
  }

  lemma OpenedFits(config: Config, shared: Shared, a: Attempt)
    requires Stored(config, shared.db, a.quote, a.submission, a.number)
    ensures PolicyFits(config, shared, PolicyOf(a))
  {
  }

  /** Policies, events and bindings that fitted before a step fit after it. */
  lemma StaysAll(config: Config, before: Shared, after: Shared)
    requires SharedFits(config, before) && Later(before, after)
    ensures forall id :: id in before.pas ==> PolicyFits(config, after, before.pas[id])
    ensures forall id :: id in before.pas ==> id in after.pas && PolicyFits(config, after, after.pas[id])
    ensures forall e :: e in before.events ==> EventFits(config, after, e)
    ensures forall b :: b in before.db.bindings ==> BindingStands(config, after, b)
  {
    hide EventFits, BindingStands, PolicyFits, Keyed;
    forall id | id in before.pas ensures PolicyFits(config, after, before.pas[id])
        && PolicyFits(config, after, after.pas[id]) {
      PolicyStays(config, before.pas[id], before, after);
      SamePolicy(config, after, before.pas[id], after.pas[id]);
    }
    forall e | e in before.events ensures EventFits(config, after, e) {
      EventStays(config, e, before, after);
    }
    forall b | b in before.db.bindings ensures BindingStands(config, after, b) {
      BindingStays(config, b, before, after);
    }
  }

  lemma SamePolicy(config: Config, shared: Shared, p: Policy, q: Policy)
    requires PolicyFits(config, shared, p) && q == p.(status := q.status)
    ensures PolicyFits(config, shared, q)
  {
  }

  lemma {:induction false} ResolveFinds(pas: Pas, page: seq<string>, number: string)
    ensures Resolve(pas, page, number).Some? ==>
              var id := Resolve(pas, page, number).value; id in page && id in pas && pas[id].number == number
    ensures Resolve(pas, page, number).None? ==> forall id :: id in page && id in pas ==> pas[id].number != number
  {
    if page != [] {
      ResolveFinds(pas, page[1..], number);
      assert forall id :: id in page <==> id == page[0] || id in page[1..];
    }
  }

  lemma TransitionFits(pas: Pas, id: string, number: string, from: Status, to: Status)
    requires Holds(pas, id, number, from) && NumbersUnique(pas) && Rank(to) == Rank(from) + 1
    ensures var after := Transition(pas, id, from, to);
            NumbersUnique(after) && Holds(after, id, number, to) && after.Keys == pas.Keys
  {
  }

  lemma PolicyThere(pas: Pas, id: string, number: string, least: Status)
    requires Holds(pas, id, number, least)
    ensures id in pas
  {
  }

  lemma MoveFits(config: Config, shared: Shared, a: Attempt, call: Call)
    requires SharedFits(config, shared) && AttemptFits(config, shared, a)
    requires call.Send? && (a.phase.Opened? || a.phase.Filed?)
    ensures var (shared', next) := Do(config, shared, a, call);
            SharedFits(config, shared') && next.Goes? && AttemptFits(config, shared', next.attempt)
  {
    hide EventFits, BindingStands, PolicyFits, Keyed, BindingsUnique, NumbersUnique, Transition, Holds, Later;
    PolicyThere(shared.pas, a.phase.policy, a.number, if a.phase.Opened? then Draft else Submitted);
    if a.phase.Opened? {
      TransitionFits(shared.pas, a.phase.policy, a.number, Draft, Submitted);
    } else {
      TransitionFits(shared.pas, a.phase.policy, a.number, Submitted, Active);
    }
    var shared' := Do(config, shared, a, call).0;
    DoIsLater(config, shared, a, call);
    StaysAll(config, shared, shared');
    AttemptStays(config, a, shared, shared');
  }

  lemma PublishFits(config: Config, shared: Shared, a: Attempt, delivery: Delivery)
    requires SharedFits(config, shared) && AttemptFits(config, shared, a) && a.phase.Activated?
    ensures var (shared', next) := Do(config, shared, a, Publish(delivery));
            SharedFits(config, shared') && next.Goes? && AttemptFits(config, shared', next.attempt)
  {
    hide EventFits, BindingStands, PolicyFits, Keyed, BindingsUnique, NumbersUnique;
    var shared' := Do(config, shared, a, Publish(delivery)).0;
    DoIsLater(config, shared, a, Publish(delivery));
    StaysAll(config, shared, shared');
    AttemptStays(config, a, shared, shared');
    EventOfFits(config, shared', a);
  }

  lemma EventOfFits(config: Config, shared: Shared, a: Attempt)
    requires AttemptFits(config, shared, a) && a.phase.Activated?
    ensures EventFits(config, shared, EventOf(a))
  {
    assert Holds(shared.pas, a.phase.policy, a.number, Active);
    assert Describes(EventOf(a), a.quote, a.submission);
  }

  lemma CommitFits(config: Config, shared: Shared, a: Attempt)
    requires SharedFits(config, shared) && AttemptFits(config, shared, a) && a.phase.Published?
    ensures var (shared', next) := Do(config, shared, a, Commit);
            SharedFits(config, shared') && next.Ends?
  {
    hide EventFits, BindingStands, PolicyFits, NumbersUnique;
    var shared' := Do(config, shared, a, Commit).0;
    DoIsLater(config, shared, a, Commit);
    StaysAll(config, shared, shared');
    if shared' != shared {
      var b := shared'.db.bindings[|shared.db.bindings|];
      assert shared'.db.bindings == shared.db.bindings + [b];
      AttemptStays(config, a, shared, shared');
      CommittedStands(config, shared', a, b);
    }
  }

  lemma CommittedStands(config: Config, shared: Shared, a: Attempt, b: Binding)
    requires AttemptFits(config, shared, a) && a.phase.Published?
    requires b.submission == a.quote.submission && b.quote == a.quote.body.id && b.policyNumber == a.number
    requires b.pasPolicyId == a.phase.policy && b.status == "bound" && b.eventPublished == a.phase.success
    ensures BindingStands(config, shared, b)
  {
    assert Stored(config, shared.db, a.quote, a.submission, b.policyNumber);
    if b.eventPublished {
      assert EventOf(a) in shared.events && Describes(EventOf(a), a.quote, a.submission);
    }
  }

  /** A step of an attempt keeps the stores and the attempt in order. */
  lemma DoFits(config: Config, shared: Shared, a: Attempt, call: Call)
    requires SharedFits(config, shared) && AttemptFits(config, shared, a)
    ensures var (shared', next) := Do(config, shared, a, call);
            SharedFits(config, shared') && (next.Goes? ==> AttemptFits(config, shared', next.attempt))
  {
    hide SharedFits, Stored, Open, Move, TryPublish, CommitBinding, Resolve, Holds, Taken;
    match (a.phase, call)
    case (Guarded, Send(freshId)) => OpenFits(config, shared, a, freshId);
    case (Conflicted, Look(page)) => ResolveFinds(shared.pas, page, a.number);
      FoundHolds(shared, page, a.number);
    case (Opened(policy), Send(_)) => MoveFits(config, shared, a, call);
    case (Filed(policy), Send(_)) => MoveFits(config, shared, a, call);
    case (Activated(policy, tries), Publish(delivery)) => PublishFits(config, shared, a, delivery);
    case (Published(policy, success), Commit) => CommitFits(config, shared, a);
    case _ =>
  }

  lemma FoundHolds(shared: Shared, page: seq<string>, number: string)
    ensures Resolve(shared.pas, page, number).Some?
            ==> Holds(shared.pas, Resolve(shared.pas, page, number).value, number, Draft)
  {
    ResolveFinds(shared.pas, page, number);
  }

  // ----- every step, every run

  lemma StartFits(config: Config, shared: Shared, submission: string, terms: Terms)
    requires StartBind(config, shared.db, submission, terms).Goes?
    ensures AttemptFits(config, shared, StartBind(config, shared.db, submission, terms).attempt)
  {
    hide FindSubmission, Latest, BindingOf;
    LatestFound(shared.db.quotes, submission);
    FoundSubmission(shared.db.submissions, submission);
  }

  lemma AttemptsStay(config: Config, attempts: map<nat, Attempt>, before: Shared, after: Shared)
    requires Later(before, after)
    requires forall k :: k in attempts ==> AttemptFits(config, before, attempts[k])
    ensures forall k :: k in attempts ==> AttemptFits(config, after, attempts[k])
  {
    hide AttemptFits, Later;
    forall k | k in attempts ensures AttemptFits(config, after, attempts[k]) {
      AttemptStays(config, attempts[k], before, after);
    }
  }

  lemma OtherIsLater(shared: Shared, request: Request)
    requires Keyed(shared.db)
    ensures Later(shared, shared.(db := Committed(shared.db, Service(shared.db, request))))
  {
    hide Keyed, Service;
    ServiceKeepsKeys(shared.db, request);
  }

  lemma ApplyIsLater(config: Config, w: World, step: Step)
    requires Inv(config, w)
    ensures Later(w.shared, Apply(config, w, step).shared)
  {
    hide Later, Do, StartBind, AttemptFits, Service;
    LaterSelf(w.shared);
    match step
    case Begin(_, _, _) =>
    case Take(key, call) =>
      if key in w.attempts {
        DoIsLater(config, w.shared, w.attempts[key], call);
      }
    case Crash(_) =>
    case Other(request) => OtherIsLater(w.shared, request);
  }

  lemma OtherFits(config: Config, shared: Shared, request: Request)
    requires SharedFits(config, shared)
    ensures SharedFits(config, shared.(db := Committed(shared.db, Service(shared.db, request))))
  {
    hide Keyed, Service, PolicyFits, EventFits, BindingStands, Later;
    ServiceKeepsKeys(shared.db, request);
    OtherIsLater(shared, request);
    StaysAll(config, shared, shared.(db := Committed(shared.db, Service(shared.db, request))));
  }

  lemma ApplyFits(config: Config, w: World, step: Step)
    requires Inv(config, w)
    ensures Inv(config, Apply(config, w, step))
  {
    hide Later, Do, StartBind, AttemptFits, Service, SharedFits;
    var w' := Apply(config, w, step);
    KeysFit(config, w);
    ApplyIsLater(config, w, step);
    AttemptsStay(config, w.attempts, w.shared, w'.shared);
    match step
    case Begin(key, submission, terms) =>
      if StartBind(config, w.shared.db, submission, terms).Goes? {
        StartFits(config, w.shared, submission, terms);
      }
    case Take(key, call) =>
      if key in w.attempts {
        DoFits(config, w.shared, w.attempts[key], call);
      }
    case Crash(_) =>
    case Other(request) => OtherFits(config, w.shared, request);
  }

  lemma KeysFit(config: Config, w: World)
    requires Inv(config, w)
    ensures Keyed(w.shared.db)
  {
    hide Keyed, PolicyFits, EventFits, BindingStands, AttemptFits;
  }

  /**
   * In every run, whatever overlaps and wherever attempts die: at most one binding per submission and
   * per number, at most one policy per number, and every attempt, policy, event and binding fits.
   */
  lemma {:induction false} RunsAreSafe(config: Config, steps: seq<Step>)
    ensures Inv(config, Run(config, START, steps))
  {
    hide Inv, Apply;
    if steps == [] {
      StartIsSafe(config);
    } else {
      RunsAreSafe(config, steps[..|steps| - 1]);
      ApplyFits(config, Run(config, START, steps[..|steps| - 1]), steps[|steps| - 1]);
    }
  }

  lemma StartIsSafe(config: Config)
    ensures Inv(config, START)
  {
  }

  lemma {:induction false} RunKeepsInv(config: Config, w: World, steps: seq<Step>)
    requires Inv(config, w)
    ensures Inv(config, Run(config, w, steps)) && Later(w.shared, Run(config, w, steps).shared)
  {
    hide Inv, Apply, Later;
    if steps == [] {
      LaterSelf(w.shared);
    } else {
      var before := Run(config, w, steps[..|steps| - 1]);
      RunKeepsInv(config, w, steps[..|steps| - 1]);
      ApplyFits(config, before, steps[|steps| - 1]);
      ApplyIsLater(config, before, steps[|steps| - 1]);
      LaterTransitive(w.shared, before.shared, Apply(config, before, steps[|steps| - 1]).shared);
    }
  }

  /**
   * From any reachable state on, no policy disappears, changes its terms or falls back, and no binding or
   * event is lost.
   */
  lemma OnlyForward(config: Config, before: seq<Step>, after: seq<Step>)
    ensures var w := Run(config, START, before);
            Later(w.shared, Run(config, w, after).shared)
  {
    hide Inv, Apply, Later, Run;
    RunsAreSafe(config, before);
    RunKeepsInv(config, Run(config, START, before), after);
  }

  // ----- what the invariant says

  /** No two quotes of the tables share a digest. */
  predicate NoCollision(config: Config, db: Tables) {
    forall i, j :: 0 <= i < |db.quotes| && 0 <= j < |db.quotes| && db.quotes[i].body.id != db.quotes[j].body.id ==>
      PolicyNumberFor(config, db.quotes[i].body.id) != PolicyNumberFor(config, db.quotes[j].body.id)
  }

  /** The same number stands for the same quote and the same submission. */
  lemma NumberNamesQuote(config: Config, db: Tables, q: Row<Quote>, s: Submission, q': Row<Quote>, s': Submission,
          number: string)
    requires Keyed(db) && NoCollision(config, db)
    requires Stored(config, db, q, s, number) && Stored(config, db, q', s', number)
    ensures q == q' && s == s'
  {
    var i :| 0 <= i < |db.quotes| && db.quotes[i] == q;
    var j :| 0 <= j < |db.quotes| && db.quotes[j] == q';
    assert PolicyNumberFor(config, q.body.id) == PolicyNumberFor(config, q'.body.id);
    assert q.body.id == q'.body.id;
    var x :| 0 <= x < |db.submissions| && db.submissions[x] == s;
    var y :| 0 <= y < |db.submissions| && db.submissions[y] == s';
  }

  predicate SameDeal(e: Event, f: Event) {
    && e.submission == f.submission && e.quote == f.quote
    && e.premiumMinor == f.premiumMinor && e.currency == f.currency && e.product == f.product
  }

  /**
   * Over all deaths, retries and duplicate publishes, two events with the same policy number agree on
   * the submission, the quote, the premium, the currency and the product; only cover dates may differ.
   */
  lemma EventsAgree(config: Config, steps: seq<Step>, e: Event, f: Event)
    requires var shared := Run(config, START, steps).shared;
             NoCollision(config, shared.db) && e in shared.events && f in shared.events
                 && e.policyNumber == f.policyNumber
    ensures SameDeal(e, f)
  {
    hide Run, NoCollision, ActiveUnder, Keyed, PolicyFits, BindingStands, AttemptFits, BindingsUnique, NumbersUnique;
    hide Stored;
    RunsAreSafe(config, steps);
    var shared := Run(config, START, steps).shared;
    assert EventFits(config, shared, e) && EventFits(config, shared, f);
    var q, s :| q in shared.db.quotes && s in shared.db.submissions
                && Stored(config, shared.db, q, s, e.policyNumber) && Describes(e, q, s);
    var q', s' :| q' in shared.db.quotes && s' in shared.db.submissions
                  && Stored(config, shared.db, q', s', f.policyNumber) && Describes(f, q', s');
    NumberNamesQuote(config, shared.db, q, s, q', s', e.policyNumber);
  }

  /**
   * In every run the policy a binding points to is active and was opened for the binding's own
   * submission: its holder and product are that submission's.
   */
  lemma BoundPolicyIsItsOwn(config: Config, steps: seq<Step>, b: Binding)
    requires var shared := Run(config, START, steps).shared;
             NoCollision(config, shared.db) && b in shared.db.bindings
    ensures var shared := Run(config, START, steps).shared;
            && b.policyNumber == PolicyNumberFor(config, b.quote)
            && b.pasPolicyId in shared.pas
            && var p := shared.pas[b.pasPolicyId];
            && p.number == b.policyNumber && p.status == Active
            && exists s :: s in shared.db.submissions && s.id == b.submission
                           && p.holder == s.counterparty && p.product == ProductFor(s.lineOfBusiness)
  {
    hide Run, NoCollision, ActiveUnder, Keyed, EventFits, AttemptFits, BindingsUnique, NumbersUnique, Announced;
    RunsAreSafe(config, steps);
    var shared := Run(config, START, steps).shared;
    assert BindingStands(config, shared, b) && PolicyFits(config, shared, shared.pas[b.pasPolicyId]);
    var p := shared.pas[b.pasPolicyId];
    var q, s :| q in shared.db.quotes && s in shared.db.submissions
                && Stored(config, shared.db, q, s, p.number) && p.holder == s.counterparty
                && p.product == ProductFor(s.lineOfBusiness);
    var q', s' :| q' in shared.db.quotes && s' in shared.db.submissions
                && Stored(config, shared.db, q', s', b.policyNumber) && b.submission == s'.id && b.quote == q'.body.id;
    NumberNamesQuote(config, shared.db, q, s, q', s', b.policyNumber);
  }
}
