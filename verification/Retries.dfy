/** The retry policy of workflows: capped exponential backoff over an immutable state. */
module Retries {

  // Delays and instants are in seconds.
  datatype Policy = Policy(maxRetries: int, base: int, cap: int, exponential: bool)
  datatype State = State(attempt: nat, lastFailedAt: int, lastError: string, nextRetryAt: int)
  datatype Result<T> = Ok(value: T) | Exhausted(attempt: nat)

  const FRESH := State(0, 0, "", 0)

  function Pow2(n: nat): nat {
    if n == 0 then 1 else 2 * Pow2(n - 1)
  }

  function Min(a: int, b: int): int {
    if a <= b then a else b
  }

  function Delay(p: Policy, attempt: nat): int {
    if p.exponential then Min(p.base * Pow2(attempt), p.cap) else p.base
  }

  function ComputeNextRetry(p: Policy, s: State, now: int): Result<int> {
    if s.attempt >= p.maxRetries then Exhausted(s.attempt) else Ok(now + Delay(p, s.attempt))
  }

  function RecordFailure(s: State, p: Policy, error: string, now: int): Result<State> {
    var attempt := s.attempt + 1;
    if attempt > p.maxRetries then Exhausted(attempt)
    else Ok(State(attempt, now, error, now + Delay(p, attempt - 1)))
  }

  predicate CanRetry(s: State, p: Policy) {
    s.attempt < p.maxRetries
  }

  /** The two ways to ask for the next retry and the test agree on every state: recording a failure
      schedules what `compute_next_retry` announced, and both fail exactly when `can_retry` says so. */
  lemma RecordKeepsTheAnnouncement(s: State, p: Policy, error: string, now: int)
    ensures RecordFailure(s, p, error, now).Ok? <==> CanRetry(s, p)
    ensures ComputeNextRetry(p, s, now).Ok? <==> CanRetry(s, p)
    ensures CanRetry(s, p) ==> RecordFailure(s, p, error, now).value.nextRetryAt == ComputeNextRetry(p, s, now).value
  {
  }

  /** n failures in a row, at the given instants. */
  function Failures(p: Policy, errors: nat -> string, clock: nat -> int, n: nat): Result<State> {
    if n == 0 then Ok(FRESH)
    else
      var before := Failures(p, errors, clock, n - 1);
      if before.Ok? then RecordFailure(before.value, p, errors(n - 1), clock(n - 1)) else before
  }

  /** The waiting time announced over n failures. */
  function TotalDelay(p: Policy, n: nat): int {
    if n == 0 then 0 else TotalDelay(p, n - 1) + Delay(p, n - 1)
  }

  /** From a fresh state exactly max_retries failures are accepted, each with its own delay. */
  lemma {:induction false} ExactlyMaxRetries(p: Policy, errors: nat -> string, clock: nat -> int, n: nat)
    ensures Failures(p, errors, clock, n).Ok? <==> n == 0 || n <= p.maxRetries
    ensures Failures(p, errors, clock, n).Ok? ==>
              var s := Failures(p, errors, clock, n).value;
              s.attempt == n && (n > 0 ==> s.nextRetryAt == clock(n - 1) + Delay(p, n - 1) && s.lastError == errors(n - 1))
  {
    if n > 0 {
      ExactlyMaxRetries(p, errors, clock, n - 1);
    }
  }

  lemma {:induction false} Pow2Grows(i: nat, j: nat)
    requires i <= j
    ensures Pow2(i) <= Pow2(j)
    decreases j
  {
    if i < j {
      Pow2Grows(i, j - 1);
    }
  }

  lemma ScaledOrder(base: int, a: nat, b: nat)
    requires a <= b
    ensures base >= 0 ==> base * a <= base * b
    ensures base <= 0 ==> base * a >= base * b
  {
    assert base * b - base * a == base * (b - a);
  }

  /** Delays never shrink for a base that is not negative (and never grow for one that is not
      positive), and never exceed the cap. */
  lemma DelaysAreMonotone(p: Policy, i: nat, j: nat)
    requires i <= j
    ensures p.base >= 0 ==> Delay(p, i) <= Delay(p, j)
    ensures p.base <= 0 ==> Delay(p, i) >= Delay(p, j)
    ensures p.exponential ==> Delay(p, i) <= p.cap
  {
    Pow2Grows(i, j);
    ScaledOrder(p.base, Pow2(i), Pow2(j));
  }

  lemma Doubled(base: int, a: int)
    ensures base * (2 * a - 1) == base * (a - 1) + base * a
  {
    assert 2 * a - 1 == (a - 1) + a;
  }

  /** All waiting together stays below both the capped and the uncapped sum. */
  lemma {:induction false} TotalIsBounded(p: Policy, n: nat)
    requires p.exponential
    ensures TotalDelay(p, n) <= n * p.cap
    ensures TotalDelay(p, n) <= p.base * (Pow2(n) - 1)
  {
    if n > 0 {
      TotalIsBounded(p, n - 1);
      assert n * p.cap == (n - 1) * p.cap + p.cap;
      Doubled(p.base, Pow2(n - 1));
    }
  }

  /** The uncapped sum is reached exactly as long as the cap is not. */
  lemma {:induction false} TotalIsExactBelowCap(p: Policy, n: nat)
    requires p.exponential && n > 0 && p.base >= 0
    ensures TotalDelay(p, n) == p.base * (Pow2(n) - 1) <==> p.base * Pow2(n - 1) <= p.cap
  {
    Doubled(p.base, Pow2(n - 1));
    TotalIsBounded(p, n - 1);
    if n > 1 {
      TotalIsExactBelowCap(p, n - 1);
      Pow2Grows(n - 2, n - 1);
      ScaledOrder(p.base, Pow2(n - 2), Pow2(n - 1));
    }
  }
}
