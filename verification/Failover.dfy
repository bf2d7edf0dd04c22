/** Retry with failover in pjs/http/forward.js: a request is replayed upstream
    while `shouldRetry` says so, and switched once to the failover targets. */
module Failover {
  import opened Sequences
  import opened Decimal

  /** What one upstream attempt comes to: a response arrived, perhaps without a
      status; or no target could be picked, with what the plugins further down the
      chain answer if they get the request. */
  datatype Outcome = NoTarget(answer: Option<nat>) | Response(status: Option<nat>)

  /** With no failover targets left the chain answers. */
  function Answered(o: Outcome): Outcome {
    if o.NoTarget? then Response(o.answer) else o
  }

  function AllAnswered(outcome: nat -> Outcome): nat -> Outcome {
    (i: nat) => Answered(outcome(i))
  }

  /** What the service configures. A missing `NumRetries` allows none. */
  datatype Config = Config(codes: set<nat>, numRetries: Option<int>)

  function Budget(c: Config): nat {
    if c.numRetries.Some? && c.numRetries.value > 0 then c.numRetries.value else 0
  }

  predicate Retryable(c: Config, o: Outcome) {
    o.Response? && o.status.Some? && o.status.value in c.codes
  }

  /** The failover targets are used after this outcome, if it is final. */
  predicate Unavailable(o: Outcome) {
    o.NoTarget? || o.status.None? || o.status.value == 0 || o.status.value > 499
  }

  /** That is: nobody answered, or without a status, or with 0 or one above 499. */
  lemma UnavailableExactly(o: Outcome)
    ensures Unavailable(o) <==> (forall status: nat :: o == Response(Some(status)) ==> status == 0 || status > 499)
  {
  }

  /** There is something to retry exactly when the status is one of the codes. */
  lemma RetryableExactly(c: Config, o: Outcome)
    ensures Retryable(c, o) <==> exists status: nat :: o == Response(Some(status)) && status in c.codes
  {
  }

  // ------------------------------------------------------------ closed form

  /** The attempt at which a phase ends that begins at attempt `from`: the first
      whose outcome is not retryable, or the one after the budget is spent. */
  function PhaseEnd(c: Config, outcome: nat -> Outcome, from: nat, budget: nat): (e: nat)
    ensures from <= e <= from + budget
    ensures forall j: nat :: from <= j < e ==> Retryable(c, outcome(j))
    ensures e == from + budget || !Retryable(c, outcome(e))
    decreases budget
  {
    if budget == 0 || !Retryable(c, outcome(from)) then from else PhaseEnd(c, outcome, from + 1, budget - 1)
  }

  /** What the first phase sees. */
  function Primary(outcome: nat -> Outcome, hasFailover: bool): nat -> Outcome {
    if hasFailover then outcome else AllAnswered(outcome)
  }

  /** The attempt whose outcome ends the first phase. */
  function PrimaryEnd(c: Config, outcome: nat -> Outcome, hasFailover: bool): nat {
    PhaseEnd(c, Primary(outcome, hasFailover), 0, Budget(c))
  }

  predicate FailsOver(c: Config, outcome: nat -> Outcome, hasFailover: bool) {
    hasFailover && Unavailable(outcome(PrimaryEnd(c, outcome, hasFailover)))
  }

  /** The retry count right after the switch: only a switch made by shouldRetry
      resets it. */
  function CountAfterSwitch(c: Config, outcome: nat -> Outcome, hasFailover: bool): nat {
    var e := PrimaryEnd(c, outcome, hasFailover);
    if outcome(e).NoTarget? then e else 0
  }

  /** The attempt whose outcome is final. */
  function FinalAttempt(c: Config, outcome: nat -> Outcome, hasFailover: bool): nat {
    var e := PrimaryEnd(c, outcome, hasFailover);
    if FailsOver(c, outcome, hasFailover)
    then PhaseEnd(c, AllAnswered(outcome), e + 1, Budget(c) - CountAfterSwitch(c, outcome, hasFailover))
    else e
  }

  /** The retry count when attempt i is replayed. */
  function CountAt(c: Config, outcome: nat -> Outcome, hasFailover: bool, i: nat): nat {
    var e := PrimaryEnd(c, outcome, hasFailover);
    if i < e then i + 1 else CountAfterSwitch(c, outcome, hasFailover) + (i - e)
  }

  // ------------------------------------------------------------------ backoff

  /** JavaScript `x | 0` on whole numbers: the low 32 bits, as a signed number. */
  function ToInt32(x: nat): int {
    var low := x % 0x1_0000_0000;
    if low < 0x8000_0000 then low else low - 0x1_0000_0000
  }

  /** The factor on the base interval: min(10, 2^(retryCount-1) | 0), where
      2^-1 | 0 is 0. */
  function DelayFactor(retryCount: nat): int {
    var p := if retryCount == 0 then 0 else ToInt32(Pow2(retryCount - 1));
    if p < 10 then p else 10
  }

  lemma {:induction false} Pow2Grows(m: nat, n: nat)
    requires m <= n
    ensures Pow2(m) <= Pow2(n)
  {
    if m < n { Pow2Grows(m, n - 1); }
  }

  lemma Pow2Values()
    ensures Pow2(4) == 16 && Pow2(30) == 0x4000_0000 && Pow2(31) == 0x8000_0000 && Pow2(32) == 0x1_0000_0000
  {
    assert Pow2(4) == 16 && Pow2(8) == 256;
    assert Pow2(12) == 4096 && Pow2(16) == 65536;
    assert Pow2(20) == 0x10_0000 && Pow2(24) == 0x100_0000 && Pow2(28) == 0x1000_0000;
  }

  lemma {:induction false} HighPowersVanish(n: nat)
    requires n >= 32
    ensures Pow2(n) % 0x1_0000_0000 == 0
  {
    Pow2Values();
    if n > 32 { HighPowersVanish(n - 1); }
  }

  /** The factor for every retry count: 2^(n-1) capped at 10 up to 31, then once
      hugely negative, then 0 for good. */
  lemma DelayFactorValues(n: nat)
    ensures n == 0 ==> DelayFactor(n) == 0
    ensures 1 <= n <= 31 ==> DelayFactor(n) == if n <= 4 then Pow2(n - 1) else 10
    ensures n == 32 ==> DelayFactor(n) == -0x8000_0000
    ensures n >= 33 ==> DelayFactor(n) == 0
  {
    Pow2Values();
    if n >= 33 {
      HighPowersVanish(n - 1);
    } else if 1 <= n <= 31 {
      Pow2Grows(n - 1, 30);
      if n > 4 { Pow2Grows(4, n - 1); } else { assert Pow2(3) == 8; Pow2Grows(n - 1, 3); }
    }
  }

  /** Backoff never shrinks from one retry to the next up to a retry count
      exactly when the count is at most 31. */
  lemma BackoffMonotoneExactly(bound: nat)
    ensures (forall m: nat, n: nat :: m <= n <= bound ==> DelayFactor(m) <= DelayFactor(n)) <==> bound <= 31
  {
    if bound <= 31 {
      forall m: nat, n: nat | m <= n <= bound
        ensures DelayFactor(m) <= DelayFactor(n)
      {
        DelayFactorValues(m);
        DelayFactorValues(n);
        if 1 <= m && n <= 4 { Pow2Grows(m - 1, n - 1); }
        if 1 <= m <= 4 { assert Pow2(3) == 8; Pow2Grows(m - 1, 3); }
      }
    } else {
      DelayFactorValues(31);
      DelayFactorValues(32);
      assert DelayFactor(31) > DelayFactor(32);
    }
  }

  /** The delay stays between nothing and ten times the base exactly when the
      retry count is not 32. */
  lemma DelayBoundedExactly(n: nat)
    ensures 0 <= DelayFactor(n) <= 10 <==> n != 32
  {
    DelayFactorValues(n);
    if 1 <= n <= 4 { assert Pow2(3) == 8; Pow2Grows(n - 1, 3); }
  }

  // ------------------------------------------------------ the delays of a run

  /** The delay factor before the replay of attempt i. */
  function DelayAt(c: Config, outcome: nat -> Outcome, hasFailover: bool, i: nat): int {
    DelayFactor(CountAt(c, outcome, hasFailover, i))
  }

  /** The replays of attempts i and j belong to one phase. */
  predicate OnePhase(c: Config, outcome: nat -> Outcome, hasFailover: bool, i: nat, j: nat) {
    var e := PrimaryEnd(c, outcome, hasFailover);
    i <= j && (j < e || e <= i)
  }

  /** Every replay of the run is delayed by at most ten times the base, and no replay
      of a phase is delayed less than one before it. */
  ghost predicate DelaysInOrder(c: Config, outcome: nat -> Outcome, hasFailover: bool) {
    var last := FinalAttempt(c, outcome, hasFailover);
    && (forall i: nat :: i < last ==> 0 <= DelayAt(c, outcome, hasFailover, i) <= 10)
    && (forall i: nat, j: nat :: j < last && OnePhase(c, outcome, hasFailover, i, j) ==>
          DelayAt(c, outcome, hasFailover, i) <= DelayAt(c, outcome, hasFailover, j))
  }

  lemma CountsStayInBudget(c: Config, outcome: nat -> Outcome, hasFailover: bool, i: nat)
    requires i < FinalAttempt(c, outcome, hasFailover)
    ensures CountAt(c, outcome, hasFailover, i) <= Budget(c)
    ensures c.codes == {} ==> CountAt(c, outcome, hasFailover, i) == 0
  {
  }

  lemma FactorsInOrder(m: nat, n: nat)
    requires m <= n <= 31
    ensures 0 <= DelayFactor(m) <= DelayFactor(n) <= 10
  {
    DelayBoundedExactly(m);
    DelayBoundedExactly(n);
    BackoffMonotoneExactly(31);
  }

  function Always(o: Outcome): nat -> Outcome {
    (i: nat) => o
  }

  /** A service with more than 31 retries and a status to retry on: when it keeps
      answering with that status, the 32nd replay has a negative delay. */
  lemma KeepsFailing(c: Config, status: nat)
    requires status in c.codes && Budget(c) >= 32
    ensures !DelaysInOrder(c, Always(Response(Some(status))), false)
  {
    var o := Response(Some(status));
    var outcome, e := Always(o), PrimaryEnd(c, Always(o), false);
    assert Primary(outcome, false)(e) == Answered(outcome(e)) == o;
    assert e == Budget(c) == FinalAttempt(c, outcome, false);
    assert CountAt(c, outcome, false, 31) == 32;
    DelayBoundedExactly(32);
    assert DelayAt(c, outcome, false, 31) == DelayFactor(32);
  }

  /** The delays of all runs of a service are in order exactly when it is allowed at
      most 31 retries, or retries on no status. */
  lemma DelaysInOrderExactly(c: Config)
    ensures (forall outcome: nat -> Outcome, hasFailover :: DelaysInOrder(c, outcome, hasFailover)) <==>
      Budget(c) <= 31 || c.codes == {}
  {
    if Budget(c) <= 31 || c.codes == {} {
      forall outcome: nat -> Outcome, hasFailover
        ensures DelaysInOrder(c, outcome, hasFailover)
      {
        InOrder(c, outcome, hasFailover);
      }
    } else {
      var status :| status in c.codes;
      KeepsFailing(c, status);
    }
  }

  lemma InOrder(c: Config, outcome: nat -> Outcome, hasFailover: bool)
    requires Budget(c) <= 31 || c.codes == {}
    ensures DelaysInOrder(c, outcome, hasFailover)
  {
    var last := FinalAttempt(c, outcome, hasFailover);
    forall i: nat | i < last
      ensures 0 <= DelayAt(c, outcome, hasFailover, i) <= 10
    {
      CountsStayInBudget(c, outcome, hasFailover, i);
      FactorsInOrder(CountAt(c, outcome, hasFailover, i), CountAt(c, outcome, hasFailover, i));
    }
    forall i: nat, j: nat | j < last && OnePhase(c, outcome, hasFailover, i, j)
      ensures DelayAt(c, outcome, hasFailover, i) <= DelayAt(c, outcome, hasFailover, j)
    {
      CountsStayInBudget(c, outcome, hasFailover, i);
      CountsStayInBudget(c, outcome, hasFailover, j);
      FactorsInOrder(CountAt(c, outcome, hasFailover, i), CountAt(c, outcome, hasFailover, j));
    }
  }

  // ------------------------------------------------------------- the session

  class Session {
    const config: Config
    var retryCount: nat
    /** `_failoverBalancer` is set. */
    var failover: bool
    /** `_targetBalancer` is the failover balancer. */
    var onFailover: bool

    constructor (config: Config, hasFailover: bool)
      ensures this.config == config && retryCount == 0 && failover == hasFailover && !onFailover
    {
      this.config := config;
      retryCount, failover, onFailover := 0, hasFailover, false;
    }

    /** What strictly decreases with every replay. */
    function Measure(): int
      reads this
    {
      (if failover then Budget(config) + 1 else 0) + Budget(config) - retryCount
    }

    method ShouldRetry(status: Option<nat>) returns (replay: bool)
      requires retryCount <= Budget(config)
      modifies this
      ensures retryCount <= Budget(config)
      ensures replay ==> Measure() < old(Measure())
      ensures replay <==>
        || (Retryable(config, Response(status)) && old(retryCount) < Budget(config))
        || (old(failover) && (status == None || status == Some(0) || status.value > 499))
      ensures
        if Retryable(config, Response(status)) && old(retryCount) < Budget(config) then
          retryCount == old(retryCount) + 1 && failover == old(failover) && onFailover == old(onFailover)
        else if replay then retryCount == 0 && !failover && onFailover
        else retryCount == old(retryCount) && failover == old(failover) && onFailover == old(onFailover)
    {
      var again := false;
      if status.Some? && status.value in config.codes {
        if config.numRetries.Some? && retryCount < config.numRetries.value {
          retryCount := retryCount + 1;
          again := true;
        }
      }
      if !again && failover && (status.None? || status.value == 0 || status.value > 499) {
        onFailover := true;
        failover := false;
        retryCount := 0;
        replay := true;
      } else {
        replay := again;
      }
    }

    /** The branch taken when no target could be picked. */
    method OnNoTarget() returns (replay: bool)
      modifies this
      ensures replay == old(failover)
      ensures replay ==> Measure() < old(Measure())
      ensures retryCount == old(retryCount) && !failover && onFailover == (old(onFailover) || replay)
    {
      replay := failover;
      if failover {
        onFailover := true;
        failover := false;
      }
    }

    /** One attempt's outcome: it is retried, or the request moves to the failover
        targets, or it ends. */
    method AfterAttempt(o: Outcome) returns (replay: bool)
      requires retryCount <= Budget(config)
      modifies this
      ensures retryCount <= Budget(config)
      ensures replay ==> Measure() < old(Measure())
      ensures var seen := if old(failover) then o else Answered(o);
        if Retryable(config, seen) && old(retryCount) < Budget(config) then
          replay && retryCount == old(retryCount) + 1 && failover == old(failover) && onFailover == old(onFailover)
        else if old(failover) && Unavailable(o) then
          replay && retryCount == (if o.NoTarget? then old(retryCount) else 0) && !failover && onFailover
        else
          !replay && onFailover == old(onFailover)
    {
      if o.NoTarget? {
        replay := OnNoTarget();
        if !replay { replay := ShouldRetry(o.answer); }
      } else {
        replay := ShouldRetry(o.status);
      }
    }

    /** The replay wrapper: the number of attempts, how many replays were retries
        and how many failovers, and the retry count at each replay. */
    method Replay(outcome: nat -> Outcome) returns (attempts: nat, retries: nat, failovers: nat, counts: seq<nat>)
      requires retryCount == 0 && !onFailover
      modifies this
      ensures attempts == FinalAttempt(config, outcome, old(failover)) + 1
      ensures attempts == 1 + retries + failovers
      ensures failovers == if FailsOver(config, outcome, old(failover)) then 1 else 0
      ensures onFailover == FailsOver(config, outcome, old(failover))
      ensures attempts <= if old(failover) then 2 * (Budget(config) + 1) else Budget(config) + 1
      ensures |counts| == attempts - 1
      ensures forall i :: 0 <= i < |counts| ==> counts[i] == CountAt(config, outcome, old(failover), i)
    {
      attempts, retries, failovers, counts := 0, 0, 0, [];
      ghost var N, hasFailover, fails := Budget(config), failover, FailsOver(config, outcome, failover);
      ghost var first, second := Primary(outcome, failover), AllAnswered(outcome);
      ghost var reset := CountAfterSwitch(config, outcome, failover);
      ghost var e := PhaseEnd(config, first, 0, N);
      ghost var e2 := PhaseEnd(config, second, e + 1, N - reset);
      assert FinalAttempt(config, outcome, failover) == if fails then e2 else e;
      while true
        invariant attempts == retries + failovers == |counts|
        invariant if onFailover
          then fails && !failover && failovers == 1 && e < attempts <= e2 && retryCount == reset + (attempts - e - 1)
          else failover == hasFailover && failovers == 0 && retryCount == attempts <= e
        invariant forall i :: 0 <= i < |counts| ==> counts[i] == CountAt(config, outcome, hasFailover, i)
        decreases Measure()
      {
        var hadFailover := failover;
        ghost var end := if onFailover then e2 else e;
        assert attempts < end ==> Retryable(config, if onFailover then second(attempts) else first(attempts));
        var replay := AfterAttempt(outcome(attempts));
        assert !replay ==> attempts == end;
        attempts := attempts + 1;
        if !replay { break; }
        if hadFailover && !failover { failovers := failovers + 1; } else { retries := retries + 1; }
        counts := counts + [retryCount];
      }
    }

    /** A request from start to end, with the delay factor before each replay. */
    method Serve(outcome: nat -> Outcome) returns (attempts: nat, retries: nat, failovers: nat, delays: seq<int>)
      requires retryCount == 0 && !onFailover
      modifies this
      ensures attempts == FinalAttempt(config, outcome, old(failover)) + 1
      ensures attempts == 1 + retries + failovers
      ensures failovers == if FailsOver(config, outcome, old(failover)) then 1 else 0
      ensures onFailover == FailsOver(config, outcome, old(failover))
      ensures attempts <= if old(failover) then 2 * (Budget(config) + 1) else Budget(config) + 1
      ensures |delays| == attempts - 1
      ensures forall i :: 0 <= i < |delays| ==> delays[i] == DelayFactor(CountAt(config, outcome, old(failover), i))
    {
      var counts;
      attempts, retries, failovers, counts := Replay(outcome);
      delays := seq(|counts|, i requires 0 <= i < |counts| => DelayFactor(counts[i]));
    }
  }
}
