/** `fetchWithRetry`: up to `maxRetries + 1` attempts of the configured
    transport, with exponential back-off between them. */
module Retry {
  import opened Fallible
  import opened Strings
  import opened Platform

  /** The longest wait between two attempts, in milliseconds. */
  const MaxDelay: nat := 10000

  /** The wait before the first retry, in milliseconds. */
  const BaseDelay: nat := 1000

  function Pow2(n: nat): (r: nat)
    ensures r >= 1
  {
    if n == 0 then 1 else 2 * Pow2(n - 1)
  }

  /** `Math.min(1000 * Math.pow(2, retries - 1), 10000)`, the wait after
      failed attempt number `retry` (counted from 1). */
  function BackoffDelay(retry: nat): nat
    requires retry >= 1
  {
    var d := BaseDelay * Pow2(retry - 1);
    if d < MaxDelay then d else MaxDelay
  }

  /** An attempt that returned a response with an ok status. */
  predicate Succeeds(a: Attempt) {
    a.Responded? && a.response.Ok()
  }

  /** The error a failed attempt leaves in `lastError`: the thrown message,
      or `HTTP error: <status>` for a response that is not ok. */
  function FailureMessage(a: Attempt): string {
    match a
    case Threw(m) => m
    case Responded(r) => "HTTP error: " + NatToString(r.status)
  }

  /** What the retry loop produced: the response or the final error, the
      waits it slept, and how many attempts it made. */
  datatype Fetched = Fetched(result: Result<Response>, delays: seq<nat>, attempts: nat)

  /** The message thrown once every attempt failed. */
  function GiveUpMessage(maxRetries: nat, last: Attempt): string {
    "Failed after " + NatToString(maxRetries) + " retries: " + FailureMessage(last)
  }

  /** The loop from attempt `k` on (`retries == k`). The attempts made are
      `k, k + 1, ...`; all but the last failed, the last succeeded unless
      the retries ran out, and a wait of `BackoffDelay(j)` precedes attempt
      `j`. */
  function RetryFrom(attempt: nat -> Attempt, maxRetries: nat, k: nat): (f: Fetched)
    requires k <= maxRetries
    decreases maxRetries - k
    ensures 1 <= f.attempts <= maxRetries - k + 1
    ensures |f.delays| == f.attempts - 1
    ensures forall j | 0 <= j < |f.delays| :: f.delays[j] == BackoffDelay(k + j + 1)
    ensures forall j | k <= j < k + f.attempts - 1 :: !Succeeds(attempt(j))
    ensures f.result.Ok? <==> Succeeds(attempt(k + f.attempts - 1))
    ensures f.result.Ok? ==> f.result.value == attempt(k + f.attempts - 1).response
    ensures f.result.Err? ==>
      f.attempts == maxRetries - k + 1 && f.result.message == GiveUpMessage(maxRetries, attempt(maxRetries))
  {
    var a := attempt(k);
    if Succeeds(a) then Fetched(Ok(a.response), [], 1)
    else if k + 1 <= maxRetries then
      var rest := RetryFrom(attempt, maxRetries, k + 1);
      Fetched(rest.result, [BackoffDelay(k + 1)] + rest.delays, rest.attempts + 1)
    else Fetched(Err(GiveUpMessage(maxRetries, a)), [], 1)
  }

  /** `fetchWithRetry(url)`, where `attempt(j)` is what the transport did on
      attempt `j`. */
  function FetchWithRetry(attempt: nat -> Attempt, maxRetries: nat): (f: Fetched)
    ensures 1 <= f.attempts <= maxRetries + 1 && |f.delays| == f.attempts - 1
    ensures forall j | 0 <= j < |f.delays| :: f.delays[j] == BackoffDelay(j + 1)
    ensures forall j | 0 <= j < f.attempts - 1 :: !Succeeds(attempt(j))
    ensures f.result.Ok? <==> Succeeds(attempt(f.attempts - 1))
    ensures f.result.Ok? ==> f.result.value == attempt(f.attempts - 1).response
    ensures f.result.Err? ==> f.attempts == maxRetries + 1 && f.result.message == GiveUpMessage(maxRetries, attempt(maxRetries))
  {
    RetryFrom(attempt, maxRetries, 0)
  }

  /** The fetch succeeds exactly when one of the first `maxRetries + 1`
      attempts succeeds, and then it returns the first such response. */
  lemma {:induction false} FirstSuccessWins(attempt: nat -> Attempt, maxRetries: nat, j: nat)
    requires j <= maxRetries && Succeeds(attempt(j))
    requires forall i | 0 <= i < j :: !Succeeds(attempt(i))
    ensures FetchWithRetry(attempt, maxRetries).result == Ok(attempt(j).response)
    ensures FetchWithRetry(attempt, maxRetries).attempts == j + 1
  {
    var f := FetchWithRetry(attempt, maxRetries);
    var n := f.attempts - 1;
    assert n <= j;
    assert f.result.Ok?;
  }

  /** When every allowed attempt fails, the fetch throws the give-up
      message built from the last failure, after `maxRetries` waits. */
  lemma AllFailuresGiveUp(attempt: nat -> Attempt, maxRetries: nat)
    requires forall i | 0 <= i <= maxRetries :: !Succeeds(attempt(i))
    ensures FetchWithRetry(attempt, maxRetries).result == Err(GiveUpMessage(maxRetries, attempt(maxRetries)))
    ensures |FetchWithRetry(attempt, maxRetries).delays| == maxRetries
  {
    var f := FetchWithRetry(attempt, maxRetries);
    assert !Succeeds(attempt(f.attempts - 1));
  }

  /** Only the first `maxRetries + 1` attempts matter. */
  lemma LaterAttemptsIrrelevant(a1: nat -> Attempt, a2: nat -> Attempt, maxRetries: nat)
    requires forall i | 0 <= i <= maxRetries :: a1(i) == a2(i)
    ensures FetchWithRetry(a1, maxRetries) == FetchWithRetry(a2, maxRetries)
  {
    RetryFromAgrees(a1, a2, maxRetries, 0);
  }

  lemma {:induction false} RetryFromAgrees(a1: nat -> Attempt, a2: nat -> Attempt, maxRetries: nat, k: nat)
    requires k <= maxRetries
    requires forall i | k <= i <= maxRetries :: a1(i) == a2(i)
    ensures RetryFrom(a1, maxRetries, k) == RetryFrom(a2, maxRetries, k)
    decreases maxRetries - k
  {
    assert a1(k) == a2(k);
    if k + 1 <= maxRetries {
      RetryFromAgrees(a1, a2, maxRetries, k + 1);
    }
  }

  /** Every wait lies between one and ten seconds. */
  lemma BackoffBounded(retry: nat)
    requires retry >= 1
    ensures BaseDelay <= BackoffDelay(retry) <= MaxDelay
  {
  }

  /** Waits never shrink from one retry to the next. */
  lemma BackoffMonotone(retry: nat)
    requires retry >= 1
    ensures BackoffDelay(retry) <= BackoffDelay(retry + 1)
  {
  }

  /** The waits double until they reach the cap. */
  lemma BackoffDoubles(retry: nat)
    requires retry >= 1 && 2 * BackoffDelay(retry) <= MaxDelay
    ensures BackoffDelay(retry + 1) == 2 * BackoffDelay(retry)
  {
  }

  /** The first waits are 1, 2, 4 and 8 seconds, and from the fifth retry on
      the wait is capped at 10 seconds. */
  lemma BackoffSchedule(retry: nat)
    requires retry >= 1
    ensures retry == 1 ==> BackoffDelay(retry) == 1000
    ensures retry == 2 ==> BackoffDelay(retry) == 2000
    ensures retry == 3 ==> BackoffDelay(retry) == 4000
    ensures retry == 4 ==> BackoffDelay(retry) == 8000
    ensures retry >= 5 ==> BackoffDelay(retry) == 10000
  {
    if retry <= 4 {
      assert Pow2(1) == 2 && Pow2(2) == 4 && Pow2(3) == 8;
    }
    if retry >= 5 {
      Pow2Grows(4, retry - 1);
    }
  }

  lemma {:induction false} Pow2Grows(m: nat, n: nat)
    requires m <= n
    ensures Pow2(m) <= Pow2(n)
    decreases n
  {
    if m < n {
      Pow2Grows(m, n - 1);
    }
  }

  /** The total time spent waiting is at most ten seconds per retry. */
  lemma {:induction false} WaitBounded(attempt: nat -> Attempt, maxRetries: nat, k: nat)
    requires k <= maxRetries
    ensures Sum(RetryFrom(attempt, maxRetries, k).delays) <= MaxDelay * (maxRetries - k)
    decreases maxRetries - k
  {
    if |RetryFrom(attempt, maxRetries, k).delays| > 0 {
      WaitStep(attempt, maxRetries, k);
      WaitBounded(attempt, maxRetries, k + 1);
      BackoffBounded(k + 1);
      assert MaxDelay * (maxRetries - k) == MaxDelay + MaxDelay * (maxRetries - (k + 1));
    }
  }

  /** A loop that waited at all waited before attempt `k + 1` first. */
  lemma WaitStep(attempt: nat -> Attempt, maxRetries: nat, k: nat)
    requires k <= maxRetries && |RetryFrom(attempt, maxRetries, k).delays| > 0
    ensures k + 1 <= maxRetries
    ensures Sum(RetryFrom(attempt, maxRetries, k).delays) ==
      BackoffDelay(k + 1) + Sum(RetryFrom(attempt, maxRetries, k + 1).delays)
  {
    var f := RetryFrom(attempt, maxRetries, k);
    var rest := RetryFrom(attempt, maxRetries, k + 1);
    assert f.delays == [BackoffDelay(k + 1)] + rest.delays;
    assert f.delays[1..] == rest.delays;
  }

  function Sum(xs: seq<nat>): nat {
    if |xs| == 0 then 0 else xs[0] + Sum(xs[1..])
  }
}
