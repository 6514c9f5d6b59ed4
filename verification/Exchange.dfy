/** The fallback chain of `exchange.rs` and `fallback.rs`: which candidates are dispatched, and why the chain stops. */
module Exchange {
  import opened Prelude

  datatype ErrorClass =
    | CredentialUnavailable | Authentication | PermissionDenied | InvalidRequest | NotFound
    | Redirect | RateLimit | Server | Timeout | Upstream

  datatype DeliveryState = Uncommitted | Committed | Terminal

  datatype FallbackPolicy = Disabled | BeforeCommit

  datatype Policy = Policy(fallback: FallbackPolicy, maxAttempts: nat)

  datatype Candidate = Candidate(endpoint: string, provider: string, credentialFallback: bool)

  predicate MayAdvanceCredential(enabled: bool, state: DeliveryState, error: ErrorClass, budgetRemaining: bool) {
    enabled && state == Uncommitted && budgetRemaining && error in {CredentialUnavailable, Server, Timeout, Upstream}
  }

  predicate MayAdvance(policy: Policy, state: DeliveryState, error: ErrorClass, attempts: nat, budgetRemaining: bool) {
    policy.fallback == BeforeCommit && state == Uncommitted && attempts < policy.maxAttempts && budgetRemaining
    && error in {RateLimit, Server, Timeout, Upstream}
  }

  /** The error an attempt ended with; only a classified one can lead to fallback. */
  datatype Failure = Failure(code: string, fallback: Option<ErrorClass>)

  const TimedOut := Failure("upstream_timeout", Some(Timeout))
  const NoAttempt := Failure("upstream_error", None)

  /**
   What happens around one attempt: whether the deadline has passed before it
   and after it, how it ends, and whether any frame is published by then.
   */
  datatype Observed = Observed(lateBefore: bool, failure: Option<Failure>, published: bool, lateAfter: bool)

  /** The rule that takes the chain from candidate `i` to the next one. */
  predicate Advances(candidates: seq<Candidate>, policy: Policy, observed: seq<Observed>, i: nat)
    requires i < |candidates| == |observed|
  {
    && i + 1 < |candidates|
    && observed[i].failure.Some? && observed[i].failure.value.fallback.Some?
    && var error := observed[i].failure.value.fallback.value;
       var visibility := if observed[i].published then Committed else Uncommitted;
       var remaining := i + 1 < policy.maxAttempts && !observed[i].lateAfter;
       var next := candidates[i + 1];
       if candidates[i].endpoint == next.endpoint then
         MayAdvanceCredential(candidates[i].credentialFallback, visibility, error, remaining)
       else if candidates[i].provider == next.provider && error == RateLimit then false
       else MayAdvance(policy, visibility, error, i + 1, remaining)
  }

  /**
   The errors that may move a request from one candidate to the next: a rate
   limit only to another provider, missing local material only to another
   credential of the same endpoint, and a permanent or unclassified error never.
   */
  predicate Permitted(policy: Policy, from: Candidate, to: Candidate, failure: Option<Failure>) {
    && failure.Some? && failure.value.fallback.Some?
    && match failure.value.fallback.value
       case RateLimit =>
         from.endpoint != to.endpoint && from.provider != to.provider && policy.fallback == BeforeCommit
       case CredentialUnavailable => from.endpoint == to.endpoint && from.credentialFallback
       case Server => if from.endpoint == to.endpoint then from.credentialFallback else policy.fallback == BeforeCommit
       case Timeout => if from.endpoint == to.endpoint then from.credentialFallback else policy.fallback == BeforeCommit
       case Upstream => if from.endpoint == to.endpoint then from.credentialFallback
         else policy.fallback == BeforeCommit
       case _ => false
  }

  /**
   The rule takes the chain on exactly when there is another candidate within the
   budget, nothing is published, the deadline has not passed, and the error
   permits it.
   */
  lemma AdvancesExactly(candidates: seq<Candidate>, policy: Policy, observed: seq<Observed>, i: nat)
    requires i < |candidates| == |observed|
    ensures Advances(candidates, policy, observed, i) <==>
              && i + 1 < |candidates| && i + 1 < policy.maxAttempts
              && !observed[i].published && !observed[i].lateAfter
              && Permitted(policy, candidates[i], candidates[i + 1], observed[i].failure)
  {
  }

  /**
   `produce_chain`. The candidates dispatched are a contiguous prefix; every
   step along it satisfied the rule; and the chain stopped exactly where the
   rule fails, the deadline had passed, or no attempt is allowed.
   */
  method ProduceChain(candidates: seq<Candidate>, policy: Policy, observed: seq<Observed>)
    returns (result: Option<Failure>, dispatched: seq<Candidate>)
    requires |candidates| == |observed|
    ensures dispatched <= candidates && |dispatched| <= policy.maxAttempts
    ensures forall i :: 0 <= i < |dispatched| ==> !observed[i].lateBefore
    ensures forall i :: 0 <= i < |dispatched| - 1 ==> Advances(candidates, policy, observed, i)
    ensures forall i :: 0 <= i < |dispatched| - 1 ==>
              !observed[i].published && !observed[i].lateAfter
              && Permitted(policy, candidates[i], candidates[i + 1], observed[i].failure)
    ensures dispatched == [] ==>
              if candidates == [] || policy.maxAttempts == 0 then result == Some(NoAttempt)
              else observed[0].lateBefore && result == Some(TimedOut)
    ensures dispatched != [] ==>
              var last := |dispatched| - 1;
              if Advances(candidates, policy, observed, last)
                 then observed[last + 1].lateBefore && result == Some(TimedOut)
              else result == observed[last].failure
  {
    dispatched := [];
    var index := 0;
    while index < |candidates| && index < policy.maxAttempts
      invariant 0 <= index <= |candidates|
      invariant dispatched == candidates[..index] && index <= policy.maxAttempts
      invariant forall i :: 0 <= i < index ==> !observed[i].lateBefore && Advances(candidates, policy, observed, i)
      invariant forall i :: 0 <= i < index ==>
                  !observed[i].published && !observed[i].lateAfter
                  && Permitted(policy, candidates[i], candidates[i + 1], observed[i].failure)
    {
      if observed[index].lateBefore {
        return Some(TimedOut), dispatched;
      }
      dispatched := dispatched + [candidates[index]];
      match observed[index].failure {
        case None =>
          return None, dispatched;
        case Some(error) =>
          var visibility := if observed[index].published then Committed else Uncommitted;
          var advance := false;
          if index + 1 < |candidates| && error.fallback.Some? {
            var next := candidates[index + 1];
            var remaining := index + 1 < policy.maxAttempts && !observed[index].lateAfter;
            if candidates[index].endpoint == next.endpoint {
              advance := MayAdvanceCredential(candidates[index].credentialFallback,
                visibility, error.fallback.value, remaining);
            } else if candidates[index].provider == next.provider && error.fallback.value == RateLimit {
              advance := false;
            } else {
              advance := MayAdvance(policy, visibility, error.fallback.value, index + 1, remaining);
            }
          }
          if !advance {
            return Some(error), dispatched;
          }
      }
      index := index + 1;
    }
    result := Some(NoAttempt);
  }
}
