/** The retry loop both buses share in effect (packages/event-bus/src/index.ts): one limit, one outcome. */
module Retries {
  import opened Encoding

  const MAX_RETRIES := 3

  /** The first attempt that succeeds, counting from `attempt`; MAX_RETRIES if none does. */
  function FirstSuccess(handler: nat -> bool, attempt: nat): (r: nat)
    requires attempt <= MAX_RETRIES
    ensures attempt <= r <= MAX_RETRIES
    ensures r < MAX_RETRIES ==> handler(r)
    ensures forall i :: attempt <= i < r ==> !handler(i)
    decreases MAX_RETRIES - attempt
  {
    if attempt == MAX_RETRIES || handler(attempt) then attempt else FirstSuccess(handler, attempt + 1)
  }

  /** `runWithRetries` of KafkaBus: None on success, or the number of attempts made in vain. */
  method RunWithRetries(handler: nat -> bool) returns (failure: Option<nat>, failures: nat)
    ensures failures == FirstSuccess(handler, 0)
    ensures failure == if failures < 3 then None else Some(3)
  {
    var attempt := 0;
    failures := 0;
    while attempt < MAX_RETRIES
      invariant 0 <= attempt <= MAX_RETRIES && failures == attempt
      invariant FirstSuccess(handler, 0) == FirstSuccess(handler, attempt)
    {
      attempt := attempt + 1;
      if handler(attempt - 1) {
        return None, failures;
      }
      failures := failures + 1;
    }
    return Some(attempt), failures;
  }
}
