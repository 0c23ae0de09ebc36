/**
  Retried transactions, and seeders that run once.

  What the database and the body of a transaction do at attempt `k` is given by
  functions of `k`, so that any attempt may fail in any way. A body returns the
  state it leaves behind even when it fails: rolling back is the store's work.
 */
module Transactions {
  import opened Wrappers

  datatype Error = Sqlite(code: int) | Failed(message: string)

  /** What one attempt runs inside a transaction, and the error of its commit. */
  datatype Work<!D> = Work(body: (nat, D) -> (D, Option<Error>), commit: nat -> Option<Error>)

  function AttemptError<D>(work: Work<D>, state: D, k: nat): Option<Error> {
    var (_, error) := work.body(k, state);
    if error.Some? then error else work.commit(k)
  }

  const MAX_RETRIES: nat := 10
  const FIRST_BACKOFF: nat := 500

  /** The pauses of eleven transactions, in milliseconds: 500 (2^10 - 1). */
  const MAX_SLEPT: nat := 511_500

  function Pow2(n: nat): nat {
    if n == 0 then 1 else 2 * Pow2(n - 1)
  }

  /** Attempt `k` failed with a code that allows another attempt. */
  predicate Retryable<D>(work: Work<D>, state: D, codes: seq<int>, k: nat) {
    match AttemptError(work, state, k)
    case Some(Sqlite(code)) => code in codes
    case _ => false
  }

  /** An attempt is followed by another iff its body or its commit failed with a listed code. */
  lemma RetryableIff<D>(work: Work<D>, state: D, codes: seq<int>, k: nat)
    ensures Retryable(work, state, codes, k) <==>
      var error := if work.body(k, state).1.Some? then work.body(k, state).1 else work.commit(k);
      error.Some? && error.value.Sqlite? && error.value.code in codes
  {
  }

  class Store<D> {
    var state: D
    const migrationError: Option<Error>

    constructor (state: D, migrationError: Option<Error>)
      ensures this.state == state && this.migrationError == migrationError
    {
      this.state, this.migrationError := state, migrationError;
    }

    /** The body's state is kept only if both the body and the commit succeed. */
    method Transaction(work: Work<D>, k: nat) returns (error: Option<Error>)
      modifies this`state
      ensures error == AttemptError(work, old(state), k)
      ensures error == if work.body(k, old(state)).1.Some? then work.body(k, old(state)).1 else work.commit(k)
      ensures state == if error.None? then work.body(k, old(state)).0 else old(state)
    {
      var begin := state;
      var (after, failed) := work.body(k, state);
      state := after;
      error := failed;
      if error.None? {
        error := work.commit(k);
      }
      if error.Some? {
        state := begin;
      }
    }

    /**
      At most eleven transactions run, with a doubling pause between them. All but
      the last fail with a listed code; the last one succeeds, is the eleventh, or
      fails with a code that is not listed. The state changes only on success, and
      then by the last run alone.
     */
    method WithRetry(work: Work<D>, codes: seq<int>) returns (error: Option<Error>, ghost runs: nat, ghost slept: nat)
      modifies this`state
      ensures migrationError.Some? ==> runs == 0 && slept == 0 && error == migrationError
      ensures migrationError.None? ==>
        && 1 <= runs <= 11
        && slept == 500 * (Pow2(runs - 1) - 1) <= 511_500
        && (forall k :: 0 <= k < runs - 1 ==> Retryable(work, old(state), codes, k))
        && (runs <= 10 ==> !Retryable(work, old(state), codes, runs - 1))
        && error == AttemptError(work, old(state), runs - 1)
      ensures state == if migrationError.None? && error.None? then work.body(runs - 1, old(state)).0 else old(state)
    {
      runs, slept := 0, 0;
      if migrationError.Some? {
        return migrationError, runs, slept;
      }
      var backoff := FIRST_BACKOFF;
      var retries := 0;
      while true
        invariant 0 <= retries <= MAX_RETRIES && runs == retries
        invariant backoff == FIRST_BACKOFF * Pow2(retries)
        invariant slept == FIRST_BACKOFF * (Pow2(retries) - 1)
        invariant state == old(state)
        invariant forall k :: 0 <= k < retries ==> Retryable(work, old(state), codes, k)
        decreases MAX_RETRIES - retries
      {
        BackoffIsBounded(retries + 1);
        error := Transaction(work, retries);
        runs := runs + 1;
        if error.Some? {
          if retries >= MAX_RETRIES {
            return error, runs, slept;
          }
          if error.value.Sqlite? {
            if error.value.code !in codes {
              return error, runs, slept;
            }
            slept := slept + backoff;
            retries := retries + 1;
            backoff := backoff * 2;
            continue;
          }
          return error, runs, slept;
        }
        return None, runs, slept;
      }
    }
  }

  lemma {:induction false} BackoffIsBounded(runs: nat)
    requires 1 <= runs <= MAX_RETRIES + 1
    ensures FIRST_BACKOFF * (Pow2(runs - 1) - 1) <= MAX_SLEPT
  {
    Pow2Grows(runs - 1, MAX_RETRIES);
    assert Pow2(10) == 4 * Pow2(8) && Pow2(8) == 4 * Pow2(6) && Pow2(6) == 4 * Pow2(4) && Pow2(4) == 16;
  }

  lemma {:induction false} Pow2Grows(m: nat, n: nat)
    requires m <= n
    ensures Pow2(m) <= Pow2(n)
  {
    if m < n {
      Pow2Grows(m, n - 1);
    }
  }
}
