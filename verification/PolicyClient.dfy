/**
 * Driving the policy service: a conflict on create is resolved to the policy that is already there, and
 * a transition the policy has already made is benign.
 */
module PolicyClient {
  import opened Wrappers
  import opened BindProtocol

  /** How a request ends for its caller: answered, failed before it had an effect, or its answer lost. */
  datatype Answer = Answered | Failed | Lost

  class PolicyServiceClient {
    /** The state of the service this client is the only one to drive. */
    var policies: Pas

    constructor ()
      ensures policies == map[]
    {
      policies := map[];
    }

    /** `_resolve_existing`: the first listed policy that carries the number. */
    method ResolveExisting(page: seq<string>, number: string) returns (found: Option<string>)
      ensures found == Resolve(policies, page, number)
    {
      for i := 0 to |page|
        invariant Resolve(policies, page, number) == Resolve(policies, page[i..], number)
      {
        if page[i] in policies && policies[page[i]].number == number {
          return Some(page[i]);
        }
        assert page[i..][1..] == page[i + 1..];
      }
      return None;
    }

    /**
     * `create_policy`: a draft under a fresh id, or on a conflict the existing policy, unless the page
     * of the lookup does not show it.
     */
    method CreatePolicy(policy: Policy, freshId: string, page: seq<string>, answer: Answer) returns (r: Result<string,
            BindError>)
      requires freshId !in policies
      modifies this`policies
      ensures policies == if answer.Failed? || Taken(old(policies), policy.number) then old(policies)
                          else old(policies)[freshId := policy]
      ensures r == if !answer.Answered? then Err(CallFailed)
                   else if !Taken(old(policies), policy.number) then Ok(freshId)
                   else if Resolve(old(policies), page, policy.number).None? then Err(PolicyAlreadyExists)
                   else Ok(Resolve(old(policies), page, policy.number).value)
    {
      if answer.Failed? {
        return Err(CallFailed);
      }
      var conflict := exists id | id in policies :: policies[id].number == policy.number;
      assert conflict == Taken(policies, policy.number);
      if !conflict {
        policies := policies[freshId := policy];
      }
      if answer.Lost? {
        return Err(CallFailed);
      }
      if !conflict {
        return Ok(freshId);
      }
      var existing := ResolveExisting(page, policy.number);
      if existing.None? {
        return Err(PolicyAlreadyExists);
      }
      return Ok(existing.value);
    }

    /**
     * `_transition`: an unknown policy is an error; a policy in another state than `from` answers a
     * conflict and stays.
     */
    method Move(policy: string, from: Status, to: Status, answer: Answer) returns (r: Result<(), BindError>)
      modifies this`policies
      ensures policies == if answer.Failed? || policy !in old(policies) then old(policies)
                          else Transition(old(policies), policy, from, to)
      ensures r == if !answer.Answered? then Err(CallFailed)
                   else if policy !in old(policies) then Err(PolicyMissing)
                   else Ok(())
    {
      if answer.Failed? {
        return Err(CallFailed);
      }
      var found := policy in policies;
      if found && policies[policy].status == from {
        policies := policies[policy := policies[policy].(status := to)];
      }
      if answer.Lost? {
        return Err(CallFailed);
      }
      return if found then Ok(()) else Err(PolicyMissing);
    }

    method Submit(policy: string, answer: Answer) returns (r: Result<(), BindError>)
      modifies this`policies
      ensures policies == if answer.Failed? || policy !in old(policies) then old(policies)
                          else Transition(old(policies), policy, Draft, Submitted)
      ensures r == if !answer.Answered? then Err(CallFailed)
                   else if policy !in old(policies) then Err(PolicyMissing)
                   else Ok(())
    {
      r := Move(policy, Draft, Submitted, answer);
    }

    method Activate(policy: string, answer: Answer) returns (r: Result<(), BindError>)
      modifies this`policies
      ensures policies == if answer.Failed? || policy !in old(policies) then old(policies)
                          else Transition(old(policies), policy, Submitted, Active)
      ensures r == if !answer.Answered? then Err(CallFailed)
                   else if policy !in old(policies) then Err(PolicyMissing)
                   else Ok(())
    {
      r := Move(policy, Submitted, Active, answer);
    }
  }
}
