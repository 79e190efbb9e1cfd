// Retrying a request, and the delays between attempts.
module RestApi {
  import opened Common

  datatype Desire = Retry | Complete

  datatype Retryable<+T> = Retryable(desire: Desire, result: T)

  const NUM_RETRIES: nat := 3

  // Seconds to wait before attempt `tryNum`; the sum is taken in size_t and must not wrap.
  function Backoff(tryNum: nat): (r: nat)
    requires tryNum < SIZE_LIMIT - 1
  {
    Min(1 + tryNum, 20)
  }

  // `answers(i)` is what the request function returns the i-th time it is called. The result is
  // that of the first Complete answer, or of the third attempt; nothing is asked after it.
  method RetryRequest<T>(answers: nat -> Retryable<T>, empty: T)
    returns (result: T, attempts: nat, sleeps: seq<nat>)
    ensures 1 <= attempts <= NUM_RETRIES
    ensures forall i :: 0 <= i < attempts - 1 ==> answers(i).desire.Retry?
    ensures attempts < NUM_RETRIES ==> answers(attempts - 1).desire.Complete?
    ensures result == answers(attempts - 1).result
    ensures sleeps == [2, 3][..attempts - 1]
  {
    var retryable := Retryable(Retry, empty);
    attempts, sleeps := 0, [];
    while attempts < NUM_RETRIES && !retryable.desire.Complete?
      invariant attempts <= NUM_RETRIES
      invariant forall i :: 0 <= i < attempts - 1 ==> answers(i).desire.Retry?
      invariant attempts == 0 ==> retryable.desire.Retry?
      invariant attempts > 0 ==> retryable == answers(attempts - 1)
      invariant sleeps == [2, 3][..Max(attempts - 1, 0)]
      decreases NUM_RETRIES - attempts
    {
      if attempts > 0 {
        sleeps := sleeps + [Backoff(attempts)];
      }
      retryable := answers(attempts);
      attempts := attempts + 1;
    }
    result := retryable.result;
  }

  // The delays of the first `n` consecutive failures: failure k sleeps Backoff(k).
  function Delays(n: nat): (r: seq<nat>)
    requires n < SIZE_LIMIT - 1
    ensures |r| == n
  {
    if n == 0 then [] else Delays(n - 1) + [Backoff(n)]
  }

  function TotalDelay(n: nat): nat
    requires n < SIZE_LIMIT - 1
  {
    if n == 0 then 0 else TotalDelay(n - 1) + Backoff(n)
  }

  // Within a run of failures the delays are min(1 + k, 20) and never decrease.
  lemma {:induction false} DelaysNeverDecrease(n: nat)
    requires n < SIZE_LIMIT - 1
    ensures forall k :: 0 <= k < n ==> Delays(n)[k] == Min(2 + k, 20)
    ensures forall j, k :: 0 <= j <= k < n ==> Delays(n)[j] <= Delays(n)[k]
  {
    if n == 0 {
    } else {
      DelaysNeverDecrease(n - 1);
    }
  }

  // They add up to a quadratic that turns linear once the ceiling is reached.
  lemma {:induction false} DelaysSum(n: nat)
    requires n < SIZE_LIMIT - 1
    ensures 2 * TotalDelay(n) == if n <= 19 then n * (n + 3) else 418 + 40 * (n - 19)
  {
    if n == 0 {
    } else {
      DelaysSum(n - 1);
      NextProduct(n);
    }
  }

  lemma NextProduct(n: int)
    ensures (n - 1) * (n - 1 + 3) + 2 * (n + 1) == n * (n + 3)
  {
  }
}
