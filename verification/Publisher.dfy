/** Publishing the bound-risk event: a bounded retry over a broker that may take a message and still fail the try. */
module Publisher {

  datatype Event = Event(
    policyNumber: string,
    submission: string,
    quote: string,
    premiumMinor: int,
    currency: string,
    product: string,
    effective: string,
    expiry: string)

  /** One try at publishing: the broker may have taken the message although the try failed. */
  datatype Delivery = Delivered | DeliveredThenFailed | NotDelivered

  /** `max(1, max_attempts)`. */
  function AtLeastOne(maxAttempts: int): (n: nat)
    ensures 1 <= n && maxAttempts <= n && (n == 1 || n == maxAttempts)
  {
    if maxAttempts < 1 then 1 else maxAttempts
  }

  /** The copies on the log after at most `n` tries, of which the first answered one is the last. */
  function Sent(deliveries: seq<Delivery>, n: nat): nat {
    if n == 0 || deliveries == [] then 0
    else
      match deliveries[0]
      case Delivered => 1
      case DeliveredThenFailed => 1 + Sent(deliveries[1..], n - 1)
      case NotDelivered => Sent(deliveries[1..], n - 1)
  }

  predicate AnyAnswered(deliveries: seq<Delivery>, n: int) {
    exists i :: 0 <= i < |deliveries| && i < n && deliveries[i].Delivered?
  }

  function Copies(event: Event, n: nat): seq<Event> {
    seq(n, _ => event)
  }

  /** An answered try has put a copy on the log, and there are never more copies than tries. */
  lemma {:induction false} AnsweredIsSent(deliveries: seq<Delivery>, n: nat)
    ensures Sent(deliveries, n) <= n
    ensures AnyAnswered(deliveries, n) ==> Sent(deliveries, n) >= 1
    ensures Sent(deliveries, n) == 0 ==> forall i :: 0 <= i < |deliveries| && i < n ==> deliveries[i].NotDelivered?
  {
    if n != 0 && deliveries != [] {
      AnsweredIsSent(deliveries[1..], n - 1);
      assert forall i :: 1 <= i < |deliveries| ==> deliveries[1..][i - 1] == deliveries[i];
      if AnyAnswered(deliveries, n) && !deliveries[0].Delivered? {
        var i :| 0 <= i < |deliveries| && i < n && deliveries[i].Delivered?;
        assert deliveries[1..][i - 1].Delivered?;
      }
    }
  }

  /**
   * One more try allowed adds a copy exactly when no earlier try was answered and the broker takes the message:
   * the loop goes on after a failed try, whether or not it left a copy, and stops at the first answered one.
   */
  lemma {:induction false} TryCounts(deliveries: seq<Delivery>, k: nat)
    requires k < |deliveries|
    ensures Sent(deliveries, 0) == 0
    ensures Sent(deliveries, k + 1) - Sent(deliveries, k)
            == if AnyAnswered(deliveries, k) || deliveries[k].NotDelivered? then 0 else 1
  {
    if k > 0 {
      TryCounts(deliveries[1..], k - 1);
      if AnyAnswered(deliveries, k) && !deliveries[0].Delivered? {
        var i :| 0 <= i < |deliveries| && i < k && deliveries[i].Delivered?;
        assert deliveries[1..][i - 1].Delivered?;
      }
      assert deliveries[0].Delivered? ==> AnyAnswered(deliveries, k);
      if AnyAnswered(deliveries[1..], k - 1) {
        var i :| 0 <= i < |deliveries| - 1 && i < k - 1 && deliveries[1..][i].Delivered?;
        assert deliveries[i + 1].Delivered?;
      }
    }
  }

  class BoundRiskPublisher {
    const maxAttempts: nat
    var log: seq<Event>

    constructor (maxAttempts: int)
      ensures this.maxAttempts == AtLeastOne(maxAttempts) && log == []
    {
      this.maxAttempts := AtLeastOne(maxAttempts);
      log := [];
    }

    /** One try: connect, publish, flush, drain. */
    method TryOnce(event: Event, delivery: Delivery) returns (answered: bool)
      modifies this`log
      ensures answered == delivery.Delivered?
      ensures log == if delivery.NotDelivered? then old(log) else old(log) + [event]
    {
      if !delivery.NotDelivered? {
        log := log + [event];
      }
      answered := delivery.Delivered?;
    }

    /** `publish`: try until one try is answered or the tries run out, when the last failure is raised. */
    method Publish(event: Event, deliveries: seq<Delivery>) returns (success: bool)
      requires |deliveries| >= maxAttempts
      modifies this`log
      ensures success == AnyAnswered(deliveries, maxAttempts)
      ensures log == old(log) + Copies(event, Sent(deliveries, maxAttempts))
      ensures |log| - |old(log)| <= maxAttempts
      ensures success ==> event in log
    {
      AnsweredIsSent(deliveries, maxAttempts);
      ghost var before := log;
      ghost var k := 0;
      for attempt := 0 to maxAttempts
        invariant log == before + Copies(event, k)
        invariant k + Sent(deliveries[attempt..], maxAttempts - attempt) == Sent(deliveries, maxAttempts)
        invariant !AnyAnswered(deliveries, attempt)
      {
        assert deliveries[attempt..][1..] == deliveries[attempt + 1..];
        var answered := TryOnce(event, deliveries[attempt]);
        if !deliveries[attempt].NotDelivered? {
          k := k + 1;
          assert Copies(event, k - 1) + [event] == Copies(event, k);
        }
        if answered {
          assert log[|log| - 1] == event;
          return true;
        }
      }
      return false;
    }
  }
}
