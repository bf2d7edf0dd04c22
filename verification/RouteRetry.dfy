/** The retry loop of a route rule in src/modules/router-http.js. The upstream is
    any sequence of statuses, one for each try. The response that concludes the
    loop ends the request, so nothing is repeated after it. */
module RouteRetry {
  import opened Sequences
  import opened Decimal

  /** An entry of `$ctx.retries`. */
  datatype Retry = Retry(target: string, succeeded: bool)

  /** At least one try, and no more than the configured attempts. */
  function MaxTries(attempts: Option<int>): nat {
    if attempts.Some? && attempts.value > 1 then attempts.value else 1
  }

  /** The number of tries: up to and including the first status that is not
      retryable, but no more than allowed. */
  predicate IsTries(status: nat -> nat, codes: set<nat>, attempts: Option<int>, tries: nat) {
    && 1 <= tries <= MaxTries(attempts)
    && (forall i: nat :: i < tries - 1 ==> status(i) in codes)
    && (tries == MaxTries(attempts) || status(tries - 1) !in codes)
  }

  /** That fixes the number. */
  lemma TriesAreUnique(status: nat -> nat, codes: set<nat>, attempts: Option<int>, m: nat, n: nat)
    requires IsTries(status, codes, attempts, m) && IsTries(status, codes, attempts, n)
    ensures m == n
  {
  }

  /** The wait before the n-th retry, n from 1. */
  function Backoff(backoff: real, n: nat): real
    requires n >= 1
  {
    backoff * Pow2(n - 1) as real
  }

  /** The total wait of the first n retries: backoff * (2^n - 1). */
  function TotalBackoff(backoff: real, n: nat): real {
    backoff * (Pow2(n) - 1) as real
  }

  lemma BackoffSum(backoff: real, n: nat)
    requires n >= 1
    ensures TotalBackoff(backoff, n - 1) + Backoff(backoff, n) == TotalBackoff(backoff, n)
  {
    var p := Pow2(n - 1);
    assert (Pow2(n) - 1) as real == (p - 1) as real + p as real;
  }

  method RunWithRetry(status: nat -> nat, target: nat -> string, codes: set<nat>, attempts: Option<int>, backoff: real)
    returns (tries: nat, answered: nat, retries: seq<Retry>, waited: real)
    ensures IsTries(status, codes, attempts, tries)
    ensures answered == status(tries - 1)
    ensures |retries| == tries - 1
    ensures forall i :: 0 <= i < tries - 1 ==> retries[i] == Retry(target(i + 1), status(i + 1) !in codes)
    ensures waited == TotalBackoff(backoff, tries - 1)
  {
    var retryCounter := 0;
    tries, retries, waited := 0, [], 0.0;
    while true
      invariant tries == retryCounter < MaxTries(attempts)
      invariant forall i: nat :: i < tries ==> status(i) in codes
      invariant |retries| == if tries == 0 then 0 else tries - 1
      invariant forall i :: 0 <= i < |retries| ==> retries[i] == Retry(target(i + 1), status(i + 1) !in codes)
      invariant waited == TotalBackoff(backoff, tries)
      decreases MaxTries(attempts) - tries
    {
      answered := status(tries);
      var needRetry := answered in codes;
      var wasRetry := retryCounter > 0;
      if wasRetry {
        retries := retries + [Retry(target(tries), !needRetry)];
      }
      tries := tries + 1;
      if needRetry {
        retryCounter := retryCounter + 1;
        if attempts.Some? && retryCounter < attempts.value {
          BackoffSum(backoff, retryCounter);
          waited := waited + Backoff(backoff, retryCounter);
        } else {
          retryCounter := 0;
          break;
        }
      } else {
        break;
      }
    }
  }

  /** Every logged retry failed, except possibly the last one, which succeeded
      exactly when the client got a status outside the retry codes. */
  lemma OnlyLastRetrySucceeds(status: nat -> nat, codes: set<nat>, attempts: Option<int>, tries: nat, i: nat)
    requires IsTries(status, codes, attempts, tries) && i < tries - 1
    ensures status(i + 1) !in codes ==> i == tries - 2 && status(tries - 1) !in codes
  {
    if i + 1 < tries - 1 { assert status(i + 1) in codes; }
  }
}
