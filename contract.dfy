/** src/utils/contract.ts: the retryable-error predicate and `submitTransaction`, a bounded
    retry loop with linear backoff, wrapped by `withRpcErrorHandler`. The chain reads and the
    ABI encoders of that file are not part of this model. */
module Contract {
  import opened Wrappers
  import opened Text
  import opened Errors

  /** `isRetryableError(error)` */
  predicate IsRetryableError(e: Error)
    ensures e.code.None? && e.message.None? ==> !IsRetryableError(e)
  {
    var message := LoweredMessage(e);
    || e.code == Some("NETWORK_ERROR")
    || e.code == Some("TIMEOUT")
    || e.code == Some("SERVER_ERROR")
    || Contains(message, "nonce too low")
    || Contains(message, "replacement transaction underpriced")
    || Contains(message, "failed to check for transaction receipt")
    || Contains(message, "transaction was not mined within")
  }

  lemma LowerIdempotent(s: string)
    ensures Lower(Lower(s)) == Lower(s)
  {
  }

  /** Message matching ignores case: an error whose message differs only in the case of its
      letters is exactly as retryable. */
  lemma RetryableIgnoresCase(e: Error, m: string)
    requires e.message == Some(m)
    ensures IsRetryableError(e.(message := Some(Lower(m)))) == IsRetryableError(e)
  {
    LowerIdempotent(m);
  }

  /** What one attempt of `sendTransaction(signedTx)` followed by `wait()` yields: a mined
      receipt, or the error either call threw. */
  datatype SendOutcome = Mined(status: int, hash: string) | Threw(error: Error)

  /** The object `submitTransaction` resolves with. */
  datatype Submission = Submission(success: bool, message: string, hash: string)

  /** A run of the retry loop: its outcome, how many times `sendTransaction` was called and
      the sleeps (in milliseconds) between attempts, in order. */
  datatype Run = Run(outcome: Result<Submission, Error>, sends: nat, delays: seq<nat>)

  /** The receipt check as written: status 1 is reported as a failure. */
  function ReceiptResult(status: int, hash: string): Submission
  {
    if status == 1 then Submission(false, "Transaction Failed", hash)
    else Submission(true, "Transaction success", hash)
  }

  /** `${lastErr.message}` in a template literal. */
  function MessageText(e: Error): string
  {
    if e.message.Some? then e.message.value else "undefined"
  }

  /** The aggregated error thrown once every attempt failed with a retryable error. */
  function RetriesExhausted(maxRetries: int, last: Error): Error
  {
    Error(RPCError,
      Some("Transaction failed after " + IntToString(maxRetries) + " retries: " + MessageText(last)),
      None, None, None, RetryDetails(last.stack, last.code))
  }

  /** With `maxRetries <= 0` the loop never runs and `lastErr.message` reads a property of
      `undefined`, which throws a `TypeError`. */
  const NoAttemptError: Error :=
    Raise(PlainError, "Cannot read properties of undefined (reading 'message')", NoDetails)

  /** The loop of `submitTransaction` from attempt `attempt` on, `lastErr` being the last
      retryable error seen (none before the first attempt). */
  function SubmitFrom(send: nat -> SendOutcome, maxRetries: int, attempt: nat, lastErr: Option<Error>): Run
    decreases if attempt < maxRetries then maxRetries - attempt else 0
  {
    if maxRetries <= attempt then
      Run(Err(if lastErr.Some? then RetriesExhausted(maxRetries, lastErr.value) else NoAttemptError), 0, [])
    else
      match send(attempt)
      case Mined(status, hash) => Run(Ok(ReceiptResult(status, hash)), 1, [])
      case Threw(e) =>
        if !IsRetryableError(e) then Run(Err(e), 1, [])
        else
          var rest := SubmitFrom(send, maxRetries, attempt + 1, Some(e));
          var pause := if attempt < maxRetries - 1 then [1000 * (attempt + 1)] else [];
          Run(rest.outcome, rest.sends + 1, pause + rest.delays)
  }

  /** `submitTransaction(signedTx, provider, maxRetries)`, `send(a)` being what attempt `a`
      yields: the loop, then the classification of anything it throws. */
  function SubmitSpec(send: nat -> SendOutcome, maxRetries: int): (r: Run)
    ensures r.sends == 0 <==> maxRetries <= 0
    ensures r.outcome.Ok? ==> 0 < r.sends
  {
    var raw := SubmitFrom(send, maxRetries, 0, None);
    raw.(outcome := WithRpcErrorHandler(raw.outcome))
  }

  /** With the default `maxRetries = 3`: at most three sends, and when all three fail
      retryably the waits are 1000 ms and 2000 ms. */
  lemma DefaultRetries(send: nat -> SendOutcome)
    ensures 1 <= SubmitSpec(send, 3).sends <= 3
    ensures SubmitSpec(send, 3).sends == 3 ==> SubmitSpec(send, 3).delays == [1000, 2000]
  {
    AttemptsAndBackoff(send, 3, 0, None);
  }

  /** `submitTransaction`, as the loop the source runs. */
  method SubmitTransaction(send: nat -> SendOutcome, maxRetries: int)
    returns (outcome: Result<Submission, Error>, sends: nat, delays: seq<nat>)
    ensures Run(outcome, sends, delays) == SubmitSpec(send, maxRetries)
  {
    var lastErr: Option<Error> := None;
    var attempt: nat := 0;
    sends, delays := 0, [];
    ghost var whole := SubmitFrom(send, maxRetries, 0, None);
    while attempt < maxRetries
      invariant lastErr.None? <==> attempt == 0
      invariant sends == attempt
      invariant var rest := SubmitFrom(send, maxRetries, attempt, lastErr);
        whole == Run(rest.outcome, sends + rest.sends, delays + rest.delays)
      decreases maxRetries - attempt
    {
      sends := sends + 1;
      match send(attempt) {
        case Mined(status, hash) =>
          outcome := WithRpcErrorHandler(Ok(ReceiptResult(status, hash)));
          return;
        case Threw(e) =>
          if !IsRetryableError(e) {
            outcome := WithRpcErrorHandler(Err(e));
            return;
          }
          lastErr := Some(e);
          ghost var rest := SubmitFrom(send, maxRetries, attempt + 1, lastErr);
          if attempt < maxRetries - 1 {
            assert delays + ([1000 * (attempt + 1)] + rest.delays) == (delays + [1000 * (attempt + 1)]) + rest.delays;
            delays := delays + [1000 * (attempt + 1)];
          }
      }
      attempt := attempt + 1;
    }
    outcome := WithRpcErrorHandler(Err(if lastErr.Some? then RetriesExhausted(maxRetries, lastErr.value) else NoAttemptError));
  }

  /** Attempts `from` up to (not including) `to` all threw retryable errors. */
  predicate RetryableFailures(send: nat -> SendOutcome, from: nat, to: nat)
  {
    forall j: nat :: from <= j < to ==> send(j).Threw? && IsRetryableError(send(j).error)
  }

  /** `sendTransaction` is called at most `maxRetries` times, and at least once when
      `maxRetries` is positive; the sleep after failed attempt `a` lasts `1000 * (a + 1)` ms,
      and there is none after the last attempt. */
  lemma {:induction false} AttemptsAndBackoff(send: nat -> SendOutcome, maxRetries: int, attempt: nat, lastErr: Option<Error>)
    requires attempt < maxRetries
    ensures var run := SubmitFrom(send, maxRetries, attempt, lastErr);
      && 1 <= run.sends <= maxRetries - attempt
      && |run.delays| == run.sends - 1
      && forall i :: 0 <= i < |run.delays| ==> run.delays[i] == 1000 * (attempt + i + 1)
    decreases maxRetries - attempt
  {
    match send(attempt)
    case Mined(_, _) =>
    case Threw(e) =>
      if IsRetryableError(e) && attempt + 1 < maxRetries {
        AttemptsAndBackoff(send, maxRetries, attempt + 1, Some(e));
        var rest := SubmitFrom(send, maxRetries, attempt + 1, Some(e));
        var run := SubmitFrom(send, maxRetries, attempt, lastErr);
        assert run.delays == [1000 * (attempt + 1)] + rest.delays;
      }
  }

  /** The first non-retryable error is what the loop throws, with no further attempt. */
  lemma {:induction false} StopsAtNonRetryable(send: nat -> SendOutcome, maxRetries: int, attempt: nat, lastErr: Option<Error>, k: nat)
    requires attempt <= k < maxRetries
    requires RetryableFailures(send, attempt, k)
    requires send(k).Threw? && !IsRetryableError(send(k).error)
    ensures SubmitFrom(send, maxRetries, attempt, lastErr).outcome == Err(send(k).error)
    ensures SubmitFrom(send, maxRetries, attempt, lastErr).sends == k - attempt + 1
    decreases k - attempt
  {
    if attempt < k {
      StopsAtNonRetryable(send, maxRetries, attempt + 1, Some(send(attempt).error), k);
    }
  }

  /** A receipt mined after retryable failures is reported with the inverted check: status 1
      gives `success: false`, "Transaction Failed", and any other status `success: true`. */
  lemma {:induction false} ReceiptCheckInverted(send: nat -> SendOutcome, maxRetries: int, attempt: nat, lastErr: Option<Error>, k: nat)
    requires attempt <= k < maxRetries
    requires RetryableFailures(send, attempt, k)
    requires send(k).Mined?
    ensures var r := SubmitFrom(send, maxRetries, attempt, lastErr).outcome;
      && r.Ok? && r.value.hash == send(k).hash
      && (r.value.success <==> send(k).status != 1)
      && (send(k).status == 1 ==> r.value.message == "Transaction Failed")
    decreases k - attempt
  {
    if attempt < k {
      ReceiptCheckInverted(send, maxRetries, attempt + 1, Some(send(attempt).error), k);
    }
  }

  /** When every attempt throws a retryable error the loop throws one `RPCError` naming
      `maxRetries` and carrying the last error's stack and code, after exactly `maxRetries`
      attempts. */
  lemma {:induction false} ExhaustsRetries(send: nat -> SendOutcome, maxRetries: int, attempt: nat, lastErr: Option<Error>)
    requires attempt < maxRetries
    requires RetryableFailures(send, attempt, maxRetries)
    ensures var run := SubmitFrom(send, maxRetries, attempt, lastErr);
      && run.outcome == Err(RetriesExhausted(maxRetries, send(maxRetries - 1).error))
      && run.sends == maxRetries - attempt
    decreases maxRetries - attempt
  {
    if attempt + 1 < maxRetries {
      ExhaustsRetries(send, maxRetries, attempt + 1, Some(send(attempt).error));
    }
  }

  /** What `submitTransaction` throws after exhausting its retries is an `RPCError`: the
      aggregated one, or, when the last message matched a classifier pattern, the
      classifier's own `RPCError` or `ContractError`. */
  lemma ExhaustedSurfacesClassified(send: nat -> SendOutcome, maxRetries: int)
    requires 0 < maxRetries
    requires RetryableFailures(send, 0, maxRetries)
    ensures var r := SubmitSpec(send, maxRetries);
      && r.sends == maxRetries
      && r.outcome == Err(Classify(RetriesExhausted(maxRetries, send(maxRetries - 1).error)))
      && r.outcome.error.cls in {RPCError, ContractError}
  {
    ExhaustsRetries(send, maxRetries, 0, None);
  }

  /** A non-retryable "execution reverted" on the first attempt surfaces as a
      `ContractError` after a single call. */
  lemma RevertSurfacesAsContractError(send: nat -> SendOutcome, maxRetries: int)
    requires 0 < maxRetries
    requires send(0).Threw? && !IsRetryableError(send(0).error)
    requires Contains(LoweredMessage(send(0).error), "execution reverted")
    ensures var r := SubmitSpec(send, maxRetries);
      && r.sends == 1 && r.delays == []
      && r.outcome.Err? && r.outcome.error.cls == ContractError
  {
    StopsAtNonRetryable(send, maxRetries, 0, None, 0);
  }
}
