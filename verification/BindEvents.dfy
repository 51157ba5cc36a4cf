/**
 * The events of one attempt over a whole run: since it began, its own steps have put on the log nothing but
 * copies of its own event, and never more of them than the tries it has.
 */
module BindEvents {
  import opened Wrappers
  import opened Store
  import opened Lifecycle
  import opened BindProtocol
  import opened BindSafety
  import opened Publisher

  /** The step starts an attempt under this key. */
  predicate Starts(config: Config, w: World, step: Step, key: nat) {
    step.Begin? && step.key == key && key !in w.attempts
    && StartBind(config, w.shared.db, step.submission, step.terms).Goes?
  }

  /** What a step of this key's attempt puts on the log. */
  function Added(config: Config, w: World, step: Step, key: nat): seq<Event> {
    if step.Take? && step.key == key && key in w.attempts then
      DoIsLater(config, w.shared, w.attempts[key], step.call);
      Do(config, w.shared, w.attempts[key], step.call).0.events[|w.shared.events|..]
    else []
  }

  /** What the last attempt to begin under this key has put on the log. */
  function EventsBy(config: Config, steps: seq<Step>, key: nat): seq<Event> {
    if steps == [] then []
    else
      var init, last := steps[..|steps| - 1], steps[|steps| - 1];
      var before := Run(config, START, init);
      if Starts(config, before, last, key) then [] else EventsBy(config, init, key) + Added(config, before, last, key)
  }

  /** The log is the steps of all attempts: a step adds to it what its own attempt adds, and nothing else does. */
  lemma LogGrowsByTakes(config: Config, w: World, step: Step)
    ensures Apply(config, w, step).shared.events
            == w.shared.events + if step.Take? then Added(config, w, step, step.key) else []
  {
    hide Do, StartBind, Service, Later;
    if step.Take? && step.key in w.attempts {
      DoIsLater(config, w.shared, w.attempts[step.key], step.call);
      LaterEvents(w.shared, Do(config, w.shared, w.attempts[step.key], step.call).0);
    }
  }

  lemma LaterEvents(a: Shared, b: Shared)
    requires Later(a, b)
    ensures a.events <= b.events && b.events == a.events + b.events[|a.events|..]
  {
  }

  lemma CopiesJoin(e: Event, n: nat, m: nat)
    ensures Copies(e, n) + Copies(e, m) == Copies(e, n + m)
  {
  }

  /** The copies are of one event, and while the attempt lives they are its own and it has counted them. */
  ghost predicate Counted(config: Config, w: World, key: nat, events: seq<Event>, e: Event, n: nat) {
    && n <= MaxTries(config) && events == Copies(e, n)
    && (key in w.attempts ==> e == EventOf(w.attempts[key]) && n == w.attempts[key].delivered)
  }

  lemma DeliveredInBounds(config: Config, w: World, key: nat)
    requires Inv(config, w) && key in w.attempts
    ensures w.attempts[key].delivered <= MaxTries(config)
  {
    hide SharedFits, Stored, Holds, Taken;
    assert AttemptFits(config, w.shared, w.attempts[key]);
  }

  lemma SameEvent(a: Attempt, b: Attempt)
    requires b == a.(phase := b.phase, delivered := b.delivered)
    ensures EventOf(b) == EventOf(a)
  {
  }

  lemma TakeCounts(config: Config, w: World, call: Call, key: nat, events: seq<Event>, e: Event, n: nat)
    returns (m: nat)
    requires Inv(config, w) && key in w.attempts && Counted(config, w, key, events, e, n)
    ensures var step := Take(key, call);
            Counted(config, Apply(config, w, step), key, events + Added(config, w, step, key), e, m)
  {
    hide Do, Inv, EventOf, Later;
    var a := w.attempts[key];
    var (after, next) := Do(config, w.shared, a, call);
    DeliveredCounts(config, w.shared, a, call);
    DoIsLater(config, w.shared, a, call);
    LaterEvents(w.shared, after);
    var w' := Apply(config, w, Take(key, call));
    if next.Goes? {
      m := next.attempt.delivered;
      SameEvent(a, next.attempt);
      CopiesJoin(e, n, m - n);
      ApplyFits(config, w, Take(key, call));
      DeliveredInBounds(config, w', key);
      assert after.events[|w.shared.events|..] == Copies(e, m - n);
    } else {
      m := n;
      assert after.events[|w.shared.events|..] == [];
      assert events + [] == events;
    }
  }

  lemma OtherCounts(config: Config, w: World, step: Step, key: nat, events: seq<Event>, e: Event, n: nat)
    requires Counted(config, w, key, events, e, n) && !Starts(config, w, step, key)
    requires !(step.Take? && step.key == key && key in w.attempts)
    ensures Counted(config, Apply(config, w, step), key, events + Added(config, w, step, key), e, n)
  {
    hide Do, StartBind, Service, EventOf, Copies;
    assert events + [] == events;
  }

  lemma StartCounts(config: Config, w: World, step: Step, key: nat)
    requires Starts(config, w, step, key)
    ensures key in Apply(config, w, step).attempts
    ensures Counted(config, Apply(config, w, step), key, [], EventOf(Apply(config, w, step).attempts[key]), 0)
  {
    hide EventOf, FindSubmission, Latest, BindingOf;
    assert Copies(EventOf(Apply(config, w, step).attempts[key]), 0) == [];
  }

  /**
   * In every run, whatever overlaps and wherever attempts die, the steps of one attempt put at most
   * `max(1, max_attempts)` copies on the log, all of one event: its own.
   */
  lemma {:induction false} AttemptDeliversFew(config: Config, steps: seq<Step>, key: nat) returns (e: Event, n: nat)
    ensures Counted(config, Run(config, START, steps), key, EventsBy(config, steps, key), e, n)
  {
    hide Apply, Inv, Counted, Added, Starts, EventOf;
    if steps == [] {
      e, n := Event("", "", "", 0, "", "", "", ""), 0;
      NothingCounted(config, key, e);
    } else {
      var init, last := steps[..|steps| - 1], steps[|steps| - 1];
      var before := Run(config, START, init);
      e, n := AttemptDeliversFew(config, init, key);
      RunsAreSafe(config, init);
      if Starts(config, before, last, key) {
        StartCounts(config, before, last, key);
        e, n := EventOf(Apply(config, before, last).attempts[key]), 0;
      } else if last.Take? && last.key == key && key in before.attempts {
        n := TakeCounts(config, before, last.call, key, EventsBy(config, init, key), e, n);
      } else {
        OtherCounts(config, before, last, key, EventsBy(config, init, key), e, n);
      }
    }
  }

  lemma NothingCounted(config: Config, key: nat, e: Event)
    ensures Counted(config, START, key, [], e, 0)
  {
    assert Copies(e, 0) == [];
  }
}
