/**
 * The cover dates of a bind: where those of a policy and of an event come from in every run, and when the
 * event a completed bind announces has the dates of the policy it bound.
 */
module BindTerms {
  import opened Text
  import opened Wrappers
  import opened Store
  import opened Lifecycle
  import opened History
  import opened BindProtocol
  import opened BindSafety
  import opened BindCompletion
  import opened Publisher

  /** A bind of the submission was begun with these cover dates. */
  predicate BegunWith(steps: seq<Step>, submission: string, effective: string, expiry: string) {
    exists i :: 0 <= i < |steps| && BeginsWith(steps[i], submission, effective, expiry)
  }

  predicate BeginsWith(step: Step, submission: string, effective: string, expiry: string) {
    step.Begin? && step.submission == submission && step.terms.effective == effective && step.terms.expiry == expiry
  }

  predicate AttemptBegun(steps: seq<Step>, shared: Shared, a: Attempt) {
    a.submission in shared.db.submissions
    && BegunWith(steps, a.submission.id, a.terms.effective, a.terms.expiry)
  }

  /** The policy has the holder of a submission and the cover dates some bind of it was begun with. */
  predicate PolicyBegun(steps: seq<Step>, shared: Shared, p: Policy) {
    exists s :: s in shared.db.submissions && p.holder == s.counterparty
                && BegunWith(steps, s.id, p.effective, p.expiry)
  }

  predicate DatesKept(steps: seq<Step>, shared: Shared) {
    && (forall id :: id in shared.pas ==> PolicyBegun(steps, shared, shared.pas[id]))
    && (forall e :: e in shared.events ==> BegunWith(steps, e.submission, e.effective, e.expiry))
  }

  ghost predicate AllBegun(steps: seq<Step>, w: World) {
    DatesKept(steps, w.shared) && forall k :: k in w.attempts ==> AttemptBegun(steps, w.shared, w.attempts[k])
  }

  lemma BegunStays(steps: seq<Step>, step: Step, submission: string, effective: string, expiry: string)
    requires BegunWith(steps, submission, effective, expiry)
    ensures BegunWith(steps + [step], submission, effective, expiry)
  {
    var i :| 0 <= i < |steps| && BeginsWith(steps[i], submission, effective, expiry);
    assert (steps + [step])[i] == steps[i];
  }

  /** More steps and more rows take nothing back. */
  lemma AllStay(steps: seq<Step>, step: Step, w: World, shared: Shared)
    requires AllBegun(steps, w) && w.shared.db.submissions <= shared.db.submissions
    requires shared.pas == w.shared.pas && shared.events == w.shared.events
    ensures AllBegun(steps + [step], World(shared, w.attempts))
  {
    hide BegunWith;
    forall k | k in w.attempts ensures AttemptBegun(steps + [step], shared, w.attempts[k]) {
      var a := w.attempts[k];
      assert AttemptBegun(steps, w.shared, a);
      BegunStays(steps, step, a.submission.id, a.terms.effective, a.terms.expiry);
    }
    forall id | id in shared.pas ensures PolicyBegun(steps + [step], shared, shared.pas[id]) {
      var p := shared.pas[id];
      assert PolicyBegun(steps, w.shared, p);
      var s :| s in w.shared.db.submissions && p.holder == s.counterparty && BegunWith(steps, s.id, p.effective,
              p.expiry);
      BegunStays(steps, step, s.id, p.effective, p.expiry);
    }
    forall e | e in shared.events ensures BegunWith(steps + [step], e.submission, e.effective, e.expiry) {
      BegunStays(steps, step, e.submission, e.effective, e.expiry);
    }
  }

  /** The policies after a call: as before, or one of them moved on, or the one this attempt opens is added. */
  lemma DoPolicies(config: Config, shared: Shared, a: Attempt, call: Call, id: string)
    requires id in Do(config, shared, a, call).0.pas
    ensures var p := Do(config, shared, a, call).0.pas[id];
            if id in shared.pas then p == shared.pas[id].(status := p.status)
            else
              && p.holder == a.submission.counterparty
              && p.effective == a.terms.effective && p.expiry == a.terms.expiry
  {
    hide Taken, Resolve, InsertBinding;
  }

  lemma EventDates(a: Attempt)
    ensures EventOf(a).submission == a.submission.id
    ensures EventOf(a).effective == a.terms.effective && EventOf(a).expiry == a.terms.expiry
  {
  }

  lemma DoKeepsDates(config: Config, steps: seq<Step>, shared: Shared, a: Attempt, call: Call)
    requires DatesKept(steps, shared) && AttemptBegun(steps, shared, a)
    ensures var (after, next) := Do(config, shared, a, call);
            && after.db.submissions == shared.db.submissions
            && DatesKept(steps, after)
            && (next.Goes? ==> AttemptBegun(steps, after, next.attempt))
  {
    hide BegunWith, Do, EventOf;
    var (after, next) := Do(config, shared, a, call);
    DeliveredCounts(config, shared, a, call);
    DoSubmissions(config, shared, a, call);
    EventDates(a);
    forall id | id in after.pas ensures PolicyBegun(steps, after, after.pas[id]) {
      DoPolicies(config, shared, a, call, id);
      if id in shared.pas {
        assert PolicyBegun(steps, shared, shared.pas[id]);
      }
    }
  }

  lemma DoSubmissions(config: Config, shared: Shared, a: Attempt, call: Call)
    ensures Do(config, shared, a, call).0.db.submissions == shared.db.submissions
  {
    hide Taken, Resolve, Transition;
  }

  lemma StartBegins(config: Config, steps: seq<Step>, w: World, step: Step)
    requires AllBegun(steps, w) && step.Begin? && step.key !in w.attempts
    requires StartBind(config, w.shared.db, step.submission, step.terms).Goes?
    ensures AllBegun(steps + [step], Apply(config, w, step))
  {
    hide BegunWith, FindSubmission, Latest, BindingOf, DatesKept;
    AllStay(steps, step, w, w.shared);
    var a := StartBind(config, w.shared.db, step.submission, step.terms).attempt;
    FoundSubmission(w.shared.db.submissions, step.submission);
    BeganNow(steps, step);
    assert AttemptBegun(steps + [step], w.shared, a);
  }

  lemma BeganNow(steps: seq<Step>, step: Step)
    requires step.Begin?
    ensures BegunWith(steps + [step], step.submission, step.terms.effective, step.terms.expiry)
  {
    assert BeginsWith((steps + [step])[|steps|], step.submission, step.terms.effective, step.terms.expiry);
  }

  lemma TakeBegins(config: Config, steps: seq<Step>, w: World, step: Step)
    requires AllBegun(steps, w) && step.Take? && step.key in w.attempts
    ensures AllBegun(steps + [step], Apply(config, w, step))
  {
    hide DatesKept, AttemptBegun, Do;
    AllStay(steps, step, w, w.shared);
    var a := w.attempts[step.key];
    DoKeepsDates(config, steps + [step], w.shared, a, step.call);
    var after := Do(config, w.shared, a, step.call).0;
    forall k | k in w.attempts ensures AttemptBegun(steps + [step], after, w.attempts[k]) {
      BegunElsewhere(steps + [step], w.shared, after, w.attempts[k]);
    }
  }

  lemma BegunElsewhere(steps: seq<Step>, shared: Shared, after: Shared, a: Attempt)
    requires AttemptBegun(steps, shared, a) && after.db.submissions == shared.db.submissions
    ensures AttemptBegun(steps, after, a)
  {
  }

  /**
   * In every run, whatever overlaps and wherever attempts die: each policy has the holder of a submission and
   * the cover dates of some bind begun for it, and so has each event for the submission it names.
   */
  lemma {:induction false} DatesWereAsked(config: Config, steps: seq<Step>)
    ensures AllBegun(steps, Run(config, START, steps))
  {
    hide AllBegun, Inv, Do, StartBind, Service;
    if steps == [] {
      NothingBegun();
    } else {
      var init, step := steps[..|steps| - 1], steps[|steps| - 1];
      var w := Run(config, START, init);
      DatesWereAsked(config, init);
      RunsAreSafe(config, init);
      assert init + [step] == steps;
      AllStay(init, step, w, w.shared);
      match step
      case Begin(key, submission, terms) =>
        if key !in w.attempts && StartBind(config, w.shared.db, submission, terms).Goes? {
          StartBegins(config, init, w, step);
        }
      case Take(key, call) =>
        if key in w.attempts {
          TakeBegins(config, init, w, step);
        }
      case Crash(key) => FewerBegun(steps, w, key);
      case Other(request) =>
        KeysFit(config, w);
        ServiceKeepsKeys(w.shared.db, request);
        AllStay(init, step, w, Apply(config, w, step).shared);
    }
  }

  lemma NothingBegun()
    ensures AllBegun([], START)
  {
  }

  lemma FewerBegun(steps: seq<Step>, w: World, key: nat)
    requires AllBegun(steps, w)
    ensures AllBegun(steps, w.(attempts := w.attempts - {key}))
  {
    hide DatesKept, AttemptBegun;
  }

  // ----- the product of a policy

  /** The product code of each known line of business; any other line is its own code, in capitals. */
  lemma ProductMeans(lineOfBusiness: string)
    ensures var code := ProductFor(lineOfBusiness);
            && (lineOfBusiness == "commercial_property" ==> code == "COMM_PROP")
            && (lineOfBusiness == "marine" ==> code == "MARINE")
            && (lineOfBusiness == "engineering" ==> code == "ENGINEERING")
            && (lineOfBusiness == "financial_lines" ==> code == "FIN_LINES")
            && (lineOfBusiness !in ["commercial_property", "marine", "engineering", "financial_lines"] ==>
                  Alike(lineOfBusiness, code) && forall i :: 0 <= i < |code| ==> !SmallLetter(code[i]))
  {
    hide Upper, Alike;
    UpperMeans(lineOfBusiness, Upper(lineOfBusiness));
  }

  // ----- the dates a completed bind announces

  /** Every policy that already has the number has these cover dates. */
  predicate DatedAlready(pas: Pas, number: string, effective: string, expiry: string) {
    forall id :: id in pas && pas[id].number == number ==> pas[id].effective == effective && pas[id].expiry == expiry
  }

  lemma AgreeLater(before: Pas, after: Pas, number: string, policy: string, terms: Terms)
    requires PasLater(before, after) && NumbersUnique(after)
    requires policy in after && after[policy].number == number && Taken(before, number)
    ensures after[policy].effective == terms.effective && after[policy].expiry == terms.expiry
            <==> DatedAlready(before, number, terms.effective, terms.expiry)
  {
    var id :| id in before && before[id].number == number;
    assert id in after && after[id].number == number;
    assert id == policy;
    assert forall other :: other in before && before[other].number == number ==> other in after && other == policy;
  }

  lemma OpensDated(config: Config, shared: Shared, a: Attempt, freshId: string)
    requires a.phase.Guarded? && !Taken(shared.pas, a.number) && freshId !in shared.pas
    ensures var (after, next) := Do(config, shared, a, Send(freshId));
            && Taken(after.pas, a.number) && DatedAlready(after.pas, a.number, a.terms.effective, a.terms.expiry)
    ensures DatedAlready(shared.pas, a.number, a.terms.effective, a.terms.expiry)
  {
    assert Do(config, shared, a, Send(freshId)).0.pas[freshId].number == a.number;
  }

  lemma ConflictsDated(config: Config, shared: Shared, a: Attempt, freshId: string)
    requires a.phase.Guarded? && Taken(shared.pas, a.number)
    ensures Do(config, shared, a, Send(freshId)).0 == shared
  {
  }

  /** What the first call of an undisturbed attempt left at the policy service is still there at its end. */
  lemma AfterFirst(config: Config, shared: Shared, a: Attempt, freshId: string, page: seq<string>,
          deliveries: seq<Delivery>)
    requires SharedFits(config, shared) && AttemptFits(config, shared, a)
    ensures var end := Drive(config, shared, Goes(a), Undisturbed(freshId, page, deliveries)).0;
            PasLater(Do(config, shared, a, Send(freshId)).0.pas, end.pas) && NumbersUnique(end.pas)
  {
    hide SharedFits, AttemptFits, Drive, Do, PasLater, NumbersUnique;
    var rest := [Look(page), Send(freshId), Send(freshId)] + Publishes(deliveries) + [Commit];
    assert Undisturbed(freshId, page, deliveries) == [Send(freshId)] + rest;
    DriveStep(config, shared, a, Send(freshId), rest);
    var (first, sent) := Do(config, shared, a, Send(freshId));
    DoFits(config, shared, a, Send(freshId));
    DriveFits(config, first, sent, rest);
    Numbered(config, Drive(config, first, sent, rest).0);
  }

  /**
   * A completed attempt announces the cover dates it was begun with. The policy it bound has those dates if and
   * only if no policy with the number was there before with others: a retry on another day announces dates that
   * the policy its first attempt opened does not have.
   */
  lemma DatesAgreeIff(config: Config, shared: Shared, submission: string, terms: Terms, freshId: string,
          page: seq<string>, deliveries: seq<Delivery>)
    requires SharedFits(config, shared) && NoCollision(config, shared.db)
    requires StartBind(config, shared.db, submission, terms).Goes?
    requires freshId !in shared.pas && |deliveries| >= MaxTries(config)
    requires var a := StartBind(config, shared.db, submission, terms).attempt; Findable(shared.pas, page, a.number)
    ensures var (end, last) := BindAlone(config, shared, submission, terms, Undisturbed(freshId, page, deliveries));
            && last.Ends? && last.result.Ok? && shared.events <= end.events
            && var b := last.result.value;
            && b.pasPolicyId in end.pas
            && (forall i :: |shared.events| <= i < |end.events| ==>
                  end.events[i].effective == terms.effective && end.events[i].expiry == terms.expiry)
            && (end.pas[b.pasPolicyId].effective == terms.effective && end.pas[b.pasPolicyId].expiry == terms.expiry
                <==> DatedAlready(shared.pas, b.policyNumber, terms.effective, terms.expiry))
  {
    hide SharedFits, NoCollision, Findable, Drive, AnyAnswered, StartBind, InsertBinding, Do, Taken;
    hide EventOf, DatedAlready, PasLater, AttemptFits, Undisturbed;
    StartsUnbound(config, shared.db, submission, terms);
    StartFits(config, shared, submission, terms);
    CompletesIff(config, shared, submission, terms, freshId, page, deliveries);
    var a := StartBind(config, shared.db, submission, terms).attempt;
    var (end, last) := BindAlone(config, shared, submission, terms, Undisturbed(freshId, page, deliveries));
    EventDates(a);
    AfterFirst(config, shared, a, freshId, page, deliveries);
    var first := Do(config, shared, a, Send(freshId)).0;
    if Taken(shared.pas, a.number) {
      ConflictsDated(config, shared, a, freshId);
    } else {
      OpensDated(config, shared, a, freshId);
    }
    AgreeLater(first.pas, end.pas, a.number, last.result.value.pasPolicyId, terms);
  }

  /**
   * A completed attempt whose number no policy had: the policy it bound is the one it opened, active, with the
   * holder and product of its submission and the dates it was begun with, and what it announced, as often as
   * the broker took it, says the same with the price of the quote.
   */
  lemma FirstBindOpens(config: Config, shared: Shared, submission: string, terms: Terms, freshId: string,
          page: seq<string>, deliveries: seq<Delivery>)
    requires SharedFits(config, shared) && NoCollision(config, shared.db)
    requires StartBind(config, shared.db, submission, terms).Goes?
    requires freshId !in shared.pas && |deliveries| >= MaxTries(config)
    requires !Taken(shared.pas, StartBind(config, shared.db, submission, terms).attempt.number)
    ensures var a := StartBind(config, shared.db, submission, terms).attempt;
            var (end, last) := BindAlone(config, shared, submission, terms, Undisturbed(freshId, page, deliveries));
            var product, price := ProductFor(a.submission.lineOfBusiness), a.quote.body.price;
            && last.Ends? && last.result.Ok?
            && last.result.value == Binding(submission, a.quote.body.id, a.number, freshId, "bound",
                   AnyAnswered(deliveries, MaxTries(config)), shared.db.clock, terms.actor)
            && end.db.bindings == shared.db.bindings + [last.result.value]
            && freshId in end.pas
            && end.pas[freshId]
               == Policy(a.number, a.submission.counterparty, product, terms.effective, terms.expiry, Active)
            && end.events == shared.events + Copies(
                   Event(a.number, submission, a.quote.body.id, price.premiumMinor, price.currency, product,
                       terms.effective, terms.expiry),
                   Sent(deliveries, MaxTries(config)))
  {
    hide SharedFits, NoCollision, Drive, AnyAnswered, StartBind, InsertBinding, Do, Taken, Sent, Copies;
    hide PasLater, AttemptFits, Undisturbed;
    StartsUnbound(config, shared.db, submission, terms);
    StartFits(config, shared, submission, terms);
    CompletesIff(config, shared, submission, terms, freshId, page, deliveries);
    var a := StartBind(config, shared.db, submission, terms).attempt;
    var (end, last) := BindAlone(config, shared, submission, terms, Undisturbed(freshId, page, deliveries));
    AfterFirst(config, shared, a, freshId, page, deliveries);
    var first := Do(config, shared, a, Send(freshId)).0;
    Opens(config, shared, a, freshId);
    OpenedStays(first.pas, end.pas, freshId, a, last.result.value.pasPolicyId);
  }

  lemma Opens(config: Config, shared: Shared, a: Attempt, freshId: string)
    requires a.phase.Guarded? && !Taken(shared.pas, a.number) && freshId !in shared.pas
    ensures var first := Do(config, shared, a, Send(freshId)).0;
            freshId in first.pas && first.pas[freshId] == PolicyOf(a)
  {
  }

  lemma OpenedStays(before: Pas, after: Pas, freshId: string, a: Attempt, policy: string)
    requires PasLater(before, after) && NumbersUnique(after) && Holds(after, policy, a.number, Active)
    requires freshId in before && before[freshId] == PolicyOf(a)
    ensures policy == freshId && after[policy] == PolicyOf(a).(status := Active)
  {
    assert after[freshId].number == a.number;
  }

  lemma Numbered(config: Config, shared: Shared)
    requires SharedFits(config, shared)
    ensures NumbersUnique(shared.pas)
  {
    hide Keyed, PolicyFits, EventFits, BindingStands, BindingsUnique;
  }
}
