/** `asyncRetry`: a bounded retry loop with jittered exponential backoff. */
module Retry {
  import opened Common
  import opened Backoff
  import opened Reals

  /** The parts of a thrown value that the retry decision reads. */
  datatype Err = Err(responseStatus: Option<int>, status: Option<int>, network: bool, exceptionMatch: bool, id: nat)

  datatype Attempt<+T> = Returned(value: T) | Thrown(error: Err)

  datatype Options = Options(
    maxAttempts: int, initialDelay: real, maxDelay: real, exponentialBase: real,
    retryOnStatus: seq<int>, retryOnNetworkError: bool)

  /** The bounds that configuration validation guarantees. */
  predicate Validated(o: Options) {
    o.maxAttempts >= 1 && 0.0 <= o.initialDelay <= o.maxDelay && o.exponentialBase >= 1.0
  }

  /** A numeric `response.status` wins over a plain `status`. */
  predicate RetryableHttp(o: Options, e: Err) {
    match (e.responseStatus, e.status)
    case (Some(code), _) => code in o.retryOnStatus
    case (None, Some(code)) => code in o.retryOnStatus
    case (None, None) => false
  }

  predicate Retryable(o: Options, e: Err) {
    e.exceptionMatch || RetryableHttp(o, e) || (o.retryOnNetworkError && e.network)
  }

  /** Attempt `k` settles the call: it returns, throws for good, or is the last. */
  predicate Settles<T>(o: Options, fn: nat -> Attempt<T>, k: nat) {
    fn(k).Returned? || !Retryable(o, fn(k).error) || k >= o.maxAttempts
  }

  /** The first settling attempt from `k` on. */
  function Settling<T>(o: Options, fn: nat -> Attempt<T>, k: nat): (n: nat)
    ensures k <= n && Settles(o, fn, n)
    ensures forall i :: k <= i < n ==> !Settles(o, fn, i)
    ensures k <= o.maxAttempts ==> n <= o.maxAttempts
    decreases o.maxAttempts - k
  {
    if Settles(o, fn, k) then k else Settling(o, fn, k + 1)
  }

  /** The first status an error carries is listed. */
  predicate StatusListed(o: Options, e: Err) {
    var carried := if e.responseStatus.Some? then e.responseStatus else e.status;
    carried.Some? && carried.value in o.retryOnStatus
  }

  /**
   An invocation is followed by another exactly if attempts remain and it throws an error whose response
   status, or else plain status, is listed, or that is of a listed class, or, where that is asked for, a
   network error.
   */
  lemma {:induction false} RetriedExactly<T>(o: Options, fn: nat -> Attempt<T>, k: nat)
    requires 1 <= k <= Settling(o, fn, 1)
    ensures k < Settling(o, fn, 1) <==>
              && k < o.maxAttempts && fn(k).Thrown?
              && (StatusListed(o, fn(k).error) || fn(k).error.exceptionMatch
                  || (o.retryOnNetworkError && fn(k).error.network))
  {
    assert k < Settling(o, fn, 1) ==> !Settles(o, fn, k);
  }

  /** Ten percent of jitter either way, the random draw being in [0, 1). */
  function Jittered(delay: real, random: real): real {
    Max(0.0, delay + delay * 0.1 * (random * 2.0 - 1.0))
  }

  /** `calculateDelay` */
  function Delay(o: Options, attempt: nat, random: real): real
    requires attempt >= 1
  {
    Jittered(Nominal(o.initialDelay, o.exponentialBase, o.maxDelay, attempt), random)
  }

  function NominalSum(o: Options, n: nat): real {
    if n == 0 then 0.0 else NominalSum(o, n - 1) + Nominal(o.initialDelay, o.exponentialBase, o.maxDelay, n)
  }

  function SleepSum(o: Options, random: nat -> real, n: nat): real {
    if n == 0 then 0.0 else SleepSum(o, random, n - 1) + Delay(o, n, random(n))
  }

  /**
   The wait between invocations `k` and `k + 1`: the initial delay times a power of the base, but no
   more than the cap, moved by up to ten percent as the draw says, and never negative.
   */
  lemma WaitIsPower(o: Options, random: nat -> real, k: nat)
    requires k >= 1
    ensures var raised := o.initialDelay * Pow(o.exponentialBase, k - 1);
      var d := if raised <= o.maxDelay then raised else o.maxDelay;
      SleepSum(o, random, k) - SleepSum(o, random, k - 1) == Shaken(d, random(k))
  {
    NominalIsPower(o.initialDelay, o.exponentialBase, o.maxDelay, k);
    ShakenIsJittered(Nominal(o.initialDelay, o.exponentialBase, o.maxDelay, k), random(k));
  }

  /** A delay lengthened by a part of it between minus and plus a tenth. */
  function Shaken(d: real, r: real): real {
    var wait := d + d * (0.1 * (2.0 * r - 1.0));
    if wait >= 0.0 then wait else 0.0
  }

  lemma ShakenIsJittered(d: real, r: real)
    ensures Jittered(d, r) == Shaken(d, r)
  {
    assert d * 0.1 * (r * 2.0 - 1.0) == d * (0.1 * (2.0 * r - 1.0));
  }

  lemma JitterBounds(d: real, r: real)
    requires d >= 0.0 && 0.0 <= r < 1.0
    ensures 0.9 * d <= Jittered(d, r) <= 1.1 * d
  {
    Scale(d, 0.0, r);
    Scale(d, r, 1.0);
    assert d * 0.1 * (r * 2.0 - 1.0) == 0.2 * (d * r) - 0.1 * d;
  }

  /** Total sleep stays within ten percent of the nominal backoff. */
  lemma {:induction false} SleepNearNominal(o: Options, random: nat -> real, n: nat)
    requires Validated(o) && forall k :: 0.0 <= random(k) < 1.0
    ensures 0.9 * NominalSum(o, n) <= SleepSum(o, random, n) <= 1.1 * NominalSum(o, n)
  {
    if n > 0 {
      SleepNearNominal(o, random, n - 1);
      var d := Nominal(o.initialDelay, o.exponentialBase, o.maxDelay, n);
      assert 0.0 <= d by { NominalGrows(o.initialDelay, o.exponentialBase, o.maxDelay, n, n); }
      JitterBounds(d, random(n));
    }
  }

  /** The nominal backoff of `n` waits lies between `n` initial delays and `n` maximal ones. */
  lemma {:induction false} NominalSumBounds(o: Options, n: nat)
    requires Validated(o)
    ensures Times(o.initialDelay, n) <= NominalSum(o, n) <= Times(o.maxDelay, n)
  {
    if n > 0 {
      NominalSumBounds(o, n - 1);
      NominalGrows(o.initialDelay, o.exponentialBase, o.maxDelay, n, n);
    }
  }

  /**
   `fn(k)` is the outcome of the `k`-th invocation.  The call ends with the first attempt that
   settles it; with no attempt allowed it throws `undefined`, here `None`.
   */
  method AsyncRetry<T>(o: Options, fn: nat -> Attempt<T>, random: nat -> real)
    returns (r: Option<Attempt<T>>, calls: nat, slept: real)
    ensures o.maxAttempts < 1 ==> r == None && calls == 0 && slept == 0.0
    ensures o.maxAttempts >= 1 ==>
              && calls == Settling(o, fn, 1) && r == Some(fn(calls))
              && 1 <= calls <= o.maxAttempts
              && slept == SleepSum(o, random, calls - 1)
  {
    slept := 0.0;
    var attempt := 1;
    while attempt <= o.maxAttempts
      invariant 1 <= attempt
      invariant o.maxAttempts >= 1 ==> attempt <= o.maxAttempts && Settling(o, fn, 1) == Settling(o, fn, attempt)
      invariant o.maxAttempts < 1 ==> attempt == 1
      invariant slept == SleepSum(o, random, attempt - 1)
      decreases o.maxAttempts - attempt
    {
      match fn(attempt) {
        case Returned(_) =>
          return Some(fn(attempt)), attempt, slept;
        case Thrown(error) =>
          var shouldRetry := attempt < o.maxAttempts && Retryable(o, error);
          if !shouldRetry {
            return Some(fn(attempt)), attempt, slept;
          }
          slept := slept + Delay(o, attempt, random(attempt));
      }
      attempt := attempt + 1;
    }
    return None, 0, slept;
  }
}
