/**
 * Binding a risk: guard reads in the workbench tables, three calls to the policy service, a retried
 * publish, and one commit. The three stores share no transaction. A bind attempt is a state machine
 * that takes one external step at a time and may die between any two of them; attempts may overlap
 * with each other and with every other request.
 */
module BindProtocol {
  import opened Publisher
  import opened Wrappers
  import opened Text
  import opened Store
  import opened Lifecycle

  // ----- the policy service

  datatype Status = Draft | Submitted | Active

  datatype Policy = Policy(number: string, holder: string, product: string, effective: string, expiry: string,
      status: Status)

  /** The policies of the service under the ids it gave them. */
  type Pas = map<string, Policy>

  predicate Taken(pas: Pas, number: string) {
    exists id :: id in pas && pas[id].number == number
  }

  /** The first policy on a listed page that carries the number. */
  function Resolve(pas: Pas, page: seq<string>, number: string): Option<string> {
    if page == [] then None
    else if page[0] in pas && pas[page[0]].number == number then Some(page[0])
    else Resolve(pas, page[1..], number)
  }

  /** A transition from the wrong state is answered with a conflict and changes nothing. */
  function Transition(pas: Pas, id: string, from: Status, to: Status): Pas
    requires id in pas
  {
    if pas[id].status == from then pas[id := pas[id].(status := to)] else pas
  }

  // ----- an attempt

  /** The digest of a quote id is opaque. */
  datatype Config = Config(digest: string -> string, maxAttempts: int)

  function PolicyNumberFor(config: Config, quote: string): string {
    "UW-" + config.digest(quote)
  }

  function MaxTries(config: Config): nat {
    AtLeastOne(config.maxAttempts)
  }

  const PRODUCTS: map<string, string> := map[
    "commercial_property" := "COMM_PROP", "marine" := "MARINE",
    "engineering" := "ENGINEERING", "financial_lines" := "FIN_LINES"]

  function ProductFor(lineOfBusiness: string): string {
    if lineOfBusiness in PRODUCTS then PRODUCTS[lineOfBusiness] else Upper(lineOfBusiness)
  }

  /** What a caller and the clock bring to an attempt; the cover dates may differ between retries. */
  datatype Terms = Terms(effective: string, expiry: string, actor: string)

  datatype Phase =
    | Guarded
    | Conflicted
    | Opened(policy: string)
    | Filed(policy: string)
    | Activated(policy: string, tries: nat)
    | Published(policy: string, success: bool)

  /** `delivered` counts the copies of the event this attempt has put on the log. */
  datatype Attempt = Attempt(
    submission: Submission,
    quote: Row<Quote>,
    number: string,
    terms: Terms,
    phase: Phase,
    delivered: nat)

  function PolicyOf(a: Attempt): Policy {
    Policy(a.number, a.submission.counterparty, ProductFor(a.submission.lineOfBusiness), a.terms.effective,
        a.terms.expiry, Draft)
  }

  function EventOf(a: Attempt): Event {
    Event(a.number, a.submission.id, a.quote.body.id, a.quote.body.price.premiumMinor, a.quote.body.price.currency,
          ProductFor(a.submission.lineOfBusiness), a.terms.effective, a.terms.expiry)
  }

  datatype Shared = Shared(db: Tables, pas: Pas, events: seq<Event>)

  /** How the world answers the next external call of an attempt. */
  datatype Call =
    | Send(freshId: string)
    | Look(page: seq<string>)
    | Publish(delivery: Delivery)
    | Commit

  datatype BindError = Refused(why: Failure) | PolicyAlreadyExists | PolicyMissing | UniqueKey | CallFailed

  datatype Next = Goes(attempt: Attempt) | Ends(result: Result<Binding, BindError>)

  function StartBind(config: Config, db: Tables, submission: string, terms: Terms): Next {
    var guard := GuardBind(db, submission);
    if guard.Err? then Ends(Err(Refused(guard.error)))
    else
      match guard.value
      case Returns(binding) => Ends(Ok(binding))
      case Proceeds(quote) =>
        Goes(Attempt(FindSubmission(db.submissions, submission).value, quote, PolicyNumberFor(config, quote.body.id),
            terms, Guarded, 0))
  }

  function Open(shared: Shared, a: Attempt, freshId: string): (Shared, Next) {
    if Taken(shared.pas, a.number) then (shared, Goes(a.(phase := Conflicted)))
    else if freshId in shared.pas then (shared, Goes(a))
    else (shared.(pas := shared.pas[freshId := PolicyOf(a)]), Goes(a.(phase := Opened(freshId))))
  }

  function LookUp(shared: Shared, a: Attempt, page: seq<string>): (Shared, Next) {
    var found := Resolve(shared.pas, page, a.number);
    if found.None? then (shared, Ends(Err(PolicyAlreadyExists))) else (shared, Goes(a.(phase := Opened(found.value))))
  }

  function Move(shared: Shared, a: Attempt, policy: string, from: Status, to: Status, phase: Phase): (Shared, Next) {
    if policy !in shared.pas then (shared, Ends(Err(PolicyMissing)))
    else (shared.(pas := Transition(shared.pas, policy, from, to)), Goes(a.(phase := phase)))
  }

  function TryPublish(config: Config, shared: Shared, a: Attempt, policy: string, tries: nat,
          delivery: Delivery): (Shared, Next) {
    var copies := if delivery.NotDelivered? then [] else [EventOf(a)];
    var phase :=
      if delivery.Delivered? then Published(policy, true)
      else if tries + 1 < MaxTries(config) then Activated(policy, tries + 1)
      else Published(policy, false);
    (shared.(events := shared.events + copies), Goes(a.(phase := phase, delivered := a.delivered + |copies|)))
  }

  function CommitBinding(shared: Shared, a: Attempt, policy: string, published: bool): (Shared, Next) {
    var committed := InsertBinding(shared.db, a.quote, a.number, policy, published, a.terms.actor);
    if committed.Err? then (shared, Ends(Err(UniqueKey)))
    else (shared.(db := committed.value), Ends(Ok(committed.value.bindings[|shared.db.bindings|])))
  }

  /** One external step of an attempt. A call it is not about to make changes nothing. */
  function Do(config: Config, shared: Shared, a: Attempt, call: Call): (Shared, Next) {
    match (a.phase, call)
    case (Guarded, Send(freshId)) => Open(shared, a, freshId)
    case (Conflicted, Look(page)) => LookUp(shared, a, page)
    case (Opened(policy), Send(_)) => Move(shared, a, policy, Draft, Submitted, Filed(policy))
    case (Filed(policy), Send(_)) => Move(shared, a, policy, Submitted, Active, Activated(policy, 0))
    case (Activated(policy, tries), Publish(delivery)) => TryPublish(config, shared, a, policy, tries, delivery)
    case (Published(policy, success), Commit) => CommitBinding(shared, a, policy, success)
    case _ => (shared, Goes(a))
  }

  // ----- overlapping attempts

  datatype World = World(shared: Shared, attempts: map<nat, Attempt>)

  /**
   * Any other request runs as one step, and no route guard is relied on: it may have been passed before a
   * bind committed.
   */
  datatype Step =
    | Begin(key: nat, submission: string, terms: Terms)
    | Take(key: nat, call: Call)
    | Crash(key: nat)
    | Other(request: Request)

  function After(shared: Shared, attempts: map<nat, Attempt>, key: nat, next: Next): World {
    World(shared, if next.Goes? then attempts[key := next.attempt] else attempts - {key})
  }

  function Apply(config: Config, w: World, step: Step): World {
    match step
    case Begin(key, submission, terms) =>
      var next := StartBind(config, w.shared.db, submission, terms);
      if key in w.attempts || next.Ends? then w else After(w.shared, w.attempts, key, next)
    case Take(key, call) =>
      if key !in w.attempts then w
      else
        var (shared, next) := Do(config, w.shared, w.attempts[key], call);
        After(shared, w.attempts, key, next)
    case Crash(key) => w.(attempts := w.attempts - {key})
    case Other(request) => w.(shared := w.shared.(db := Committed(w.shared.db, Service(w.shared.db, request))))
  }

  const START := World(Shared(EMPTY, map[], []), map[])

  function Run(config: Config, w: World, steps: seq<Step>): World {
    if steps == [] then w else Apply(config, Run(config, w, steps[..|steps| - 1]), steps[|steps| - 1])
  }

  // ----- one attempt on its own

  /** An attempt takes the calls one after the other; what is left when they run out has died. */
  function Drive(config: Config, shared: Shared, next: Next, calls: seq<Call>): (Shared, Next)
    decreases |calls|
  {
    if calls == [] || next.Ends? then (shared, next)
    else
      var (shared', next') := Do(config, shared, next.attempt, calls[0]);
      Drive(config, shared', next', calls[1..])
  }

  /** A whole bind request with nothing else running. */
  function BindAlone(config: Config, shared: Shared, submission: string, terms: Terms, calls: seq<Call>): (Shared,
          Next) {
    Drive(config, shared, StartBind(config, shared.db, submission, terms), calls)
  }
}
