/** Bounded retry of transactions: what is retried, how often, and what comes out. */
module SafeRetry {
  datatype SqlState = SerializationFailure | DeadlockDetected | OtherFailure

  datatype Attempt<T> = Committed(value: T) | Threw(error: SqlState)

  datatype Safety = ReadOnly | IdempotentMutation(keyBlank: bool)

  datatype Policy = Policy(safety: Safety, transactionReadOnly: bool, maxAttempts: int)

  datatype Result<T> = Ok(value: T) | Err(error: SqlState) | InvalidPolicy

  predicate Retryable(error: SqlState) {
    error.SerializationFailure? || error.DeadlockDetected?
  }

  // The retry boundary and the policy are checked before the first call.
  predicate ValidPolicy(p: Policy) {
    && (p.safety.ReadOnly? ==> p.transactionReadOnly)
    && (p.safety.IdempotentMutation? ==> !p.transactionReadOnly && !p.safety.keyBlank)
    && p.maxAttempts >= 1
  }

  // Call number `n` is the last one: it committed, threw something final, or exhausted the attempts.
  predicate Final<T>(attempts: nat -> Attempt<T>, n: nat, maxAttempts: int) {
    attempts(n).Committed? || !Retryable(attempts(n).error) || n >= maxAttempts
  }

  // attempts(n) is what the n-th call of the operation does. The calls stop at the first final one,
  // every call before it was rolled back with a retryable error, and its result is the result.
  method WithSafeRetry<T>(attempts: nat -> Attempt<T>, p: Policy) returns (result: Result<T>, calls: nat)
    ensures result == InvalidPolicy <==>
              || p.maxAttempts < 1
              || (if p.safety.ReadOnly? then !p.transactionReadOnly else p.transactionReadOnly || p.safety.keyBlank)
    ensures result == InvalidPolicy ==> calls == 0
    ensures ValidPolicy(p) ==>
              && 1 <= calls <= p.maxAttempts
              && Final(attempts, calls, p.maxAttempts)
              && (forall n :: 1 <= n < calls ==> attempts(n) in {Threw(SerializationFailure), Threw(DeadlockDetected)})
              && (calls < p.maxAttempts ==> attempts(calls) !in {Threw(SerializationFailure), Threw(DeadlockDetected)})
              && result == (if attempts(calls).Committed? then Ok(attempts(calls).value) else Err(attempts(calls).error))
  {
    calls := 0;
    if !ValidPolicy(p) {
      return InvalidPolicy, 0;
    }
    result := InvalidPolicy;
    while calls < p.maxAttempts
      invariant 0 <= calls <= p.maxAttempts
      invariant forall n :: 1 <= n <= calls ==> attempts(n).Threw? && Retryable(attempts(n).error)
      invariant calls < p.maxAttempts
    {
      calls := calls + 1;
      match attempts(calls)
      case Committed(value) => return Ok(value), calls;
      case Threw(error) =>
        var canRetry := calls < p.maxAttempts && Retryable(error);
        if !canRetry {
          return Err(error), calls;
        }
    }
  }
}
