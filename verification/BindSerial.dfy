/**
 * Requests one at a time: binds that may die midway between other requests through the routes. Such a
 * run is one of the runs of `BindProtocol`, and its tables are those of `HistoryRuns`, so both
 * invariants hold along it.
 */
module BindSerial {
  import opened Wrappers
  import opened Store
  import opened Lifecycle
  import opened History
  import opened BindCompletion
  import opened BindProtocol
  import opened Publisher
  import opened BindSafety
  import HistoryLaws
  import HistoryRuns

  datatype Request' = Ask(request: Request) | BindRequest(submission: string, terms: Terms, calls: seq<Call>)

  function Handle(config: Config, shared: Shared, request: Request'): Shared {
    match request
    case Ask(r) => shared.(db := Committed(shared.db, Route(shared.db, r)))
    case BindRequest(submission, terms, calls) => BindAlone(config, shared, submission, terms, calls).0
  }

  function Serve(config: Config, shared: Shared, requests: seq<Request'>): Shared {
    if requests == [] then shared
    else Handle(config, Serve(config, shared, requests[..|requests| - 1]), requests[|requests| - 1])
  }

  // ----- the tables see a bind as its commit, or not at all

  /** The attempt keeps its quote and number, and the tables are untouched until it commits. */
  lemma {:induction false} DriveCommits(config: Config, shared: Shared, a: Attempt, calls: seq<Call>)
    returns (policy: string, published: bool)
    ensures var (end, last) := Drive(config, shared, Goes(a), calls);
            end.db == shared.db
            || InsertBinding(shared.db, a.quote, a.number, policy, published, a.terms.actor) == Ok(end.db)
    decreases |calls|
  {
    hide InsertBinding, Taken, Resolve, Transition;
    if calls == [] {
      policy, published := "", false;
    } else {
      var (shared', next) := Do(config, shared, a, calls[0]);
      if next.Goes? {
        policy, published := DriveCommits(config, shared', next.attempt, calls[1..]);
      } else {
        policy, published := if a.phase.Published? then a.phase.policy else "", a.phase.Published? && a.phase.success;
      }
    }
  }

  /** What a request does to the tables is what an action of `HistoryRuns` does. */
  lemma HandleIsAction(config: Config, shared: Shared, request: Request') returns (actions: seq<HistoryRuns.Action>)
    ensures HistoryRuns.Serve(shared.db, actions) == Handle(config, shared, request).db
  {
    hide Route, Do, InsertBinding, FindSubmission, Latest, BindingOf, Drive;
    match request
    case Ask(r) =>
      actions := [HistoryRuns.Ask(r)];
      OneAction(shared.db, actions[0]);
    case BindRequest(submission, terms, calls) =>
      var start := StartBind(config, shared.db, submission, terms);
      actions := [];
      if start.Ends? {
        NothingLeft(config, shared, start, calls);
      } else if Handle(config, shared, request).db != shared.db {
        var policy, published := DriveCommits(config, shared, start.attempt, calls);
        actions := [HistoryRuns.CommitBind(submission, start.attempt.number, policy, published, terms.actor)];
        OneAction(shared.db, actions[0]);
      }
  }

  lemma NothingLeft(config: Config, shared: Shared, next: Next, calls: seq<Call>)
    requires next.Ends?
    ensures Drive(config, shared, next, calls) == (shared, next)
  {
  }

  lemma OneAction(db: Tables, action: HistoryRuns.Action)
    ensures HistoryRuns.Serve(db, [action]) == HistoryRuns.Perform(db, action)
  {
    hide HistoryRuns.Perform;
    assert [action][..0] == [];
  }

  lemma {:induction false} ServeConcat(db: Tables, a: seq<HistoryRuns.Action>, b: seq<HistoryRuns.Action>)
    ensures HistoryRuns.Serve(db, a + b) == HistoryRuns.Serve(HistoryRuns.Serve(db, a), b)
  {
    hide HistoryRuns.Perform;
    if b == [] {
      assert a + b == a;
    } else {
      assert (a + b)[..|a + b| - 1] == a + b[..|b| - 1];
      ServeConcat(db, a, b[..|b| - 1]);
    }
  }

  /** The tables of a serial run are those of a run of `HistoryRuns`. */
  lemma {:induction false} SerialTables(config: Config, shared: Shared, requests: seq<Request'>)
    returns (actions: seq<HistoryRuns.Action>)
    ensures HistoryRuns.Serve(shared.db, actions) == Serve(config, shared, requests).db
  {
    hide Handle;
    if requests == [] {
      actions := [];
    } else {
      var before := SerialTables(config, shared, requests[..|requests| - 1]);
      var more := HandleIsAction(config, Serve(config, shared, requests[..|requests| - 1]), requests[|requests| - 1]);
      ServeConcat(shared.db, before, more);
      actions := before + more;
    }
  }

  // ----- a serial run is one of the runs

  function Takes(key: nat, calls: seq<Call>): seq<Step> {
    if calls == [] then [] else [Take(key, calls[0])] + Takes(key, calls[1..])
  }

  lemma {:induction false} RunConcat(config: Config, w: World, a: seq<Step>, b: seq<Step>)
    ensures Run(config, w, a + b) == Run(config, Run(config, w, a), b)
  {
    hide Apply;
    if b == [] {
      assert a + b == a;
    } else {
      assert (a + b)[..|a + b| - 1] == a + b[..|b| - 1];
      RunConcat(config, w, a, b[..|b| - 1]);
    }
  }

  lemma RunOne(config: Config, w: World, step: Step)
    ensures Run(config, w, [step]) == Apply(config, w, step)
  {
    hide Apply;
    assert [step][..0] == [];
  }

  /** Steps of an attempt that is no longer there do nothing. */
  lemma {:induction false} TakesNothing(config: Config, w: World, key: nat, calls: seq<Call>)
    requires key !in w.attempts
    ensures Run(config, w, Takes(key, calls)) == w
  {
    hide Do, Run;
    if calls == [] {
      RunNone(config, w);
    } else {
      RunConcat(config, w, [Take(key, calls[0])], Takes(key, calls[1..]));
      RunOne(config, w, Take(key, calls[0]));
      TakesNothing(config, w, key, calls[1..]);
    }
  }

  lemma RunNone(config: Config, w: World)
    ensures Run(config, w, []) == w
  {
  }

  lemma {:induction false} TakesDrive(config: Config, w: World, key: nat, calls: seq<Call>)
    requires key in w.attempts
    ensures var (end, last) := Drive(config, w.shared, Goes(w.attempts[key]), calls);
            Run(config, w, Takes(key, calls)) == After(end, w.attempts, key, last)
    decreases |calls|
  {
    hide Do, Run;
    if calls == [] {
      RunNone(config, w);
      assert w.attempts[key := w.attempts[key]] == w.attempts;
    } else {
      var (shared', next) := Do(config, w.shared, w.attempts[key], calls[0]);
      var w' := After(shared', w.attempts, key, next);
      RunConcat(config, w, [Take(key, calls[0])], Takes(key, calls[1..]));
      RunOne(config, w, Take(key, calls[0]));
      if next.Goes? {
        TakesDrive(config, w', key, calls[1..]);
        var (end, last) := Drive(config, shared', next, calls[1..]);
        assert w'.attempts - {key} == w.attempts - {key};
      } else {
        TakesNothing(config, w', key, calls[1..]);
        NothingLeft(config, shared', next, calls[1..]);
      }
    }
  }

  /** A bind on its own is a begin, its calls, and a death if the calls run out, among any other attempts. */
  lemma AloneIsARun(config: Config, w: World, key: nat, submission: string, terms: Terms, calls: seq<Call>)
    requires key !in w.attempts
    ensures Run(config, w, [Begin(key, submission, terms)] + Takes(key, calls) + [Crash(key)])
            == w.(shared := BindAlone(config, w.shared, submission, terms, calls).0)
  {
    hide Drive, Run, StartBind;
    var start := StartBind(config, w.shared.db, submission, terms);
    var w' := Apply(config, w, Begin(key, submission, terms));
    RunConcat(config, w, [Begin(key, submission, terms)] + Takes(key, calls), [Crash(key)]);
    RunConcat(config, w, [Begin(key, submission, terms)], Takes(key, calls));
    RunOne(config, w, Begin(key, submission, terms));
    if start.Goes? {
      TakesDrive(config, w', key, calls);
      var (end, last) := Drive(config, w'.shared, start, calls);
      RunOne(config, After(end, w'.attempts, key, last), Crash(key));
      assert After(end, w'.attempts, key, last).attempts - {key} == w.attempts;
    } else {
      TakesNothing(config, w', key, calls);
      NothingLeft(config, w.shared, start, calls);
      RunOne(config, w, Crash(key));
      assert w.attempts - {key} == w.attempts;
    }
  }

  lemma HandleIsARun(config: Config, shared: Shared, request: Request') returns (steps: seq<Step>)
    ensures Run(config, World(shared, map[]), steps) == World(Handle(config, shared, request), map[])
  {
    hide Run, Route, BindAlone;
    var w := World(shared, map[]);
    match request
    case Ask(r) =>
      if Route(shared.db, r).Ok? {
        steps := [Other(r)];
        RunOne(config, w, Other(r));
        RouteIsService(shared.db, r);
      } else {
        steps := [];
        RunNone(config, w);
      }
    case BindRequest(submission, terms, calls) =>
      steps := [Begin(0, submission, terms)] + Takes(0, calls) + [Crash(0)];
      AloneIsARun(config, w, 0, submission, terms, calls);
  }

  lemma RouteIsService(db: Tables, request: Request)
    requires Route(db, request).Ok?
    ensures Route(db, request) == Service(db, request)
  {
    hide Service;
  }

  lemma {:induction false} SerialIsARun(config: Config, requests: seq<Request'>) returns (steps: seq<Step>)
    ensures Run(config, START, steps) == World(Serve(config, START.shared, requests), map[])
  {
    hide Run, Handle;
    if requests == [] {
      steps := [];
      RunNone(config, START);
    } else {
      var before := SerialIsARun(config, requests[..|requests| - 1]);
      var more := HandleIsARun(config, Serve(config, START.shared, requests[..|requests| - 1]),
          requests[|requests| - 1]);
      RunConcat(config, START, before, more);
      steps := before + more;
    }
  }

  /** Along every serial run, with binds dying wherever they like, both invariants hold. */
  lemma SerialRunsAreSound(config: Config, requests: seq<Request'>)
    ensures var shared := Serve(config, START.shared, requests);
            Valid(shared.db) && SharedFits(config, shared)
  {
    hide Run, Serve, HistoryRuns.Serve, Valid, SharedFits;
    var actions := SerialTables(config, START.shared, requests);
    HistoryRuns.RunsAreValid(actions);
    var steps := SerialIsARun(config, requests);
    RunsAreSafe(config, steps);
  }

  /**
   * In a serial run a bound submission is frozen: whatever requests follow, binds and dying binds
   * included, its decisions, quotes, audit log and binding stay exactly as they are.
   */
  lemma BoundStaysFrozen(config: Config, before: seq<Request'>, after: seq<Request'>, id: string)
    requires BindingOf(Serve(config, START.shared, before).db.bindings, id).Some?
    ensures var shared := Serve(config, START.shared, before);
            HistoryLaws.SameFor(shared.db, Serve(config, shared, after).db, id)
  {
    hide Serve, HistoryRuns.Serve, Valid, SharedFits, HistoryLaws.SameFor, BindingOf;
    var shared := Serve(config, START.shared, before);
    SerialRunsAreSound(config, before);
    var actions := SerialTables(config, shared, after);
    HistoryLaws.BoundIsFrozen(shared.db, actions, id);
  }

  /** One bind, wherever it dies, keeps both invariants, and loses nothing. */
  lemma BindKeepsBoth(config: Config, shared: Shared, submission: string, terms: Terms, calls: seq<Call>)
    requires Valid(shared.db) && SharedFits(config, shared)
    ensures var end := BindAlone(config, shared, submission, terms, calls).0;
            Valid(end.db) && SharedFits(config, end) && Later(shared, end)
  {
    hide Valid, SharedFits, Later, BindAlone, HistoryRuns.Serve;
    var actions := HandleIsAction(config, shared, BindRequest(submission, terms, calls));
    HistoryLaws.ServeKeepsValid(shared.db, actions);
    BoundFits(config, shared, submission, terms, calls);
  }
}
