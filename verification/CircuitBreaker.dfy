/** The circuit breaker of pjs/http/circuit-breaker.js. Requests, responses and
    the one-second refresh interleave freely; a response may arrive long after
    the breaker has opened, closed or started a new window. */
module CircuitBreaker {
  import opened Ratios

  /** Thresholds, after the defaults are filled in; 0 disables one. */
  datatype Config = Config(
    minRequestAmount: int, statTimeWindow: nat,
    slowAmountThreshold: nat, slowRatioThreshold: real,
    errorAmountThreshold: nat, errorRatioThreshold: real,
    degradedTimeWindow: nat)

  /** The closure's counters; the two quotas by what they still hold. */
  datatype State = State(
    tick: nat, delay: nat, total: nat, slowAmount: nat, errorAmount: nat, degraded: bool,
    slowQuota: nat, errorQuota: nat)

  function Minus1(threshold: nat): nat {
    if threshold > 0 then threshold - 1 else 0
  }

  function Initial(c: Config): State {
    State(0, 0, 0, 0, 0, false, Minus1(c.slowAmountThreshold), Minus1(c.errorAmountThreshold))
  }

  /** An arriving request, a response with what it was found to be, the refresh
      timer, and the two quotas being filled up by the runtime. */
  datatype Event = Request | Response(slow: bool, error: bool) | Refresh | RefillSlow | RefillError

  /** `ratio > 0 && total >= min && amount / total >= ratio`; with no requests the
      quotient is not a number and the comparison fails. */
  predicate RatioTrips(c: Config, ratio: real, amount: nat, total: nat) {
    ratio > 0.0 && total >= c.minRequestAmount && total > 0 && amount as real >= ratio * total as real
  }

  function ErrorChecked(c: Config, s: State, error: bool): State {
    if !error || (c.errorAmountThreshold == 0 && c.errorRatioThreshold <= 0.0) then s
    else
      var s1 := if s.errorAmount < s.total then s.(errorAmount := s.errorAmount + 1) else s;
      if c.errorAmountThreshold > 0 && s1.errorQuota == 0 then s1.(degraded := true)
      else
        var s2 := if c.errorAmountThreshold > 0 then s1.(errorQuota := s1.errorQuota - 1) else s1;
        if RatioTrips(c, c.errorRatioThreshold, s2.errorAmount, s2.total) then s2.(degraded := true) else s2
  }

  function SlowChecked(c: Config, s: State, slow: bool): State {
    if !slow || (c.slowAmountThreshold == 0 && c.slowRatioThreshold <= 0.0) then s
    else
      var s1 := if s.slowAmount < s.total then s.(slowAmount := s.slowAmount + 1) else s;
      if c.slowAmountThreshold > 0 && s1.slowQuota == 0 then s1.(degraded := true)
      else
        var s2 := if c.slowAmountThreshold > 0 then s1.(slowQuota := s1.slowQuota - 1) else s1;
        if RatioTrips(c, c.slowRatioThreshold, s2.slowAmount, s2.total) then s2.(degraded := true) else s2
  }

  function Refreshed(c: Config, s: State): State {
    var s1 :=
      if !s.degraded then s
      else if s.delay + 1 > c.degradedTimeWindow
      then s.(degraded := false, delay := 0, tick := 0, total := 0, slowAmount := 0, errorAmount := 0)
      else s.(delay := s.delay + 1);
    if s1.degraded then s1
    else if s1.tick + 1 > c.statTimeWindow then s1.(tick := 0, total := 0, slowAmount := 0, errorAmount := 0)
    else s1.(tick := s1.tick + 1)
  }

  /** A request to a degraded breaker is answered without touching anything. */
  function Step(c: Config, s: State, e: Event): State {
    match e
    case Request => if s.degraded then s else s.(total := s.total + 1)
    case Response(slow, error) => SlowChecked(c, ErrorChecked(c, s, error), slow)
    case Refresh => Refreshed(c, s)
    case RefillSlow => s.(slowQuota := Minus1(c.slowAmountThreshold))
    case RefillError => s.(errorQuota := Minus1(c.errorAmountThreshold))
  }

  function RunFrom(c: Config, s: State, events: seq<Event>): State {
    if events == [] then s else Step(c, RunFrom(c, s, events[..|events| - 1]), events[|events| - 1])
  }

  // --------------------------------------------------------- the run invariant

  predicate RatioReached(c: Config, s: State) {
    || RatioTrips(c, c.slowRatioThreshold, s.slowAmount, s.total)
    || RatioTrips(c, c.errorRatioThreshold, s.errorAmount, s.total)
  }

  predicate OnlyRatios(c: Config) {
    c.slowAmountThreshold == 0 && c.errorAmountThreshold == 0
  }

  predicate Invariant(c: Config, s: State) {
    && s.slowAmount <= s.total && s.errorAmount <= s.total
    && (!s.degraded ==> s.delay == 0)
    && s.delay <= c.degradedTimeWindow && s.tick <= c.statTimeWindow
    && (OnlyRatios(c) && s.degraded ==> RatioReached(c, s))
  }

  lemma StepKeepsInvariant(c: Config, s: State, e: Event)
    requires Invariant(c, s)
    ensures Invariant(c, Step(c, s, e))
  {
    if e.Response? {
      CheckErrorKeepsInvariant(c, s, e.error);
      CheckSlowKeepsInvariant(c, ErrorChecked(c, s, e.error), e.slow);
    }
  }

  lemma CheckErrorKeepsInvariant(c: Config, s: State, error: bool)
    requires Invariant(c, s)
    ensures Invariant(c, ErrorChecked(c, s, error))
  {
  }

  lemma CheckSlowKeepsInvariant(c: Config, s: State, slow: bool)
    requires Invariant(c, s)
    ensures Invariant(c, SlowChecked(c, s, slow))
  {
  }

  /** In every reachable state slow and error amounts are at most the total, the
      delay is 0 unless degraded, and with only ratio thresholds a degraded
      breaker still shows the ratio that opened it, however late responses fall. */
  lemma {:induction false} InvariantHolds(c: Config, events: seq<Event>)
    ensures Invariant(c, RunFrom(c, Initial(c), events))
  {
    if events != [] {
      InvariantHolds(c, events[..|events| - 1]);
      StepKeepsInvariant(c, RunFrom(c, Initial(c), events[..|events| - 1]), events[|events| - 1]);
    }
  }

  // ----------------------------------------------------- how long it stays open

  function Refreshes(events: seq<Event>): nat {
    if events == [] then 0 else Refreshes(events[..|events| - 1]) + if events[|events| - 1].Refresh? then 1 else 0
  }

  /** From the moment it opens, a breaker stays open through exactly
      degradedTimeWindow refreshes, whatever happens in between. */
  lemma {:induction false} StaysOpen(c: Config, s: State, events: seq<Event>)
    requires s.degraded && s.delay == 0 && Refreshes(events) <= c.degradedTimeWindow
    ensures var s' := RunFrom(c, s, events); s'.degraded && s'.delay == Refreshes(events)
  {
    if events != [] { StaysOpen(c, s, events[..|events| - 1]); }
  }

  /** The next refresh closes it, with all statistics cleared and one tick of the
      new window gone, if that window has any. */
  lemma ClosesOnNextRefresh(c: Config, s: State, events: seq<Event>)
    requires s.degraded && s.delay == 0 && Refreshes(events) == c.degradedTimeWindow
    ensures var s' := RunFrom(c, s, events + [Refresh]);
      && !s'.degraded && s'.delay == 0 && s'.total == 0 && s'.slowAmount == 0 && s'.errorAmount == 0
      && s'.tick == if c.statTimeWindow > 0 then 1 else 0
  {
    StaysOpen(c, s, events);
    assert (events + [Refresh])[..|events|] == events;
  }

  // ------------------------------------------------------ what opening needs

  function Run(c: Config, events: seq<Event>): State {
    RunFrom(c, Initial(c), events)
  }

  /** The requests that were let through and not answered yet. */
  function Pending(c: Config, events: seq<Event>): int {
    if events == [] then 0
    else
      var init := events[..|events| - 1];
      Pending(c, init) +
      match events[|events| - 1]
      case Request => if Run(c, init).degraded then 0 else 1
      case Response(_, _) => -1
      case _ => 0
  }

  /** Every response answers a request that was let through and not answered yet. */
  predicate Plausible(c: Config, events: seq<Event>) {
    if events == [] then true
    else
      var init := events[..|events| - 1];
      Plausible(c, init) && (events[|events| - 1].Response? ==> Pending(c, init) > 0)
  }

  predicate Opens(c: Config, s: State, e: Event) {
    !s.degraded && Step(c, s, e).degraded
  }

  /** With only ratio thresholds an opening breaker has counted requests, at least
      the configured minimum, and the ratio is reached. */
  lemma OpeningNeedsRequests(c: Config, s: State, e: Event)
    requires OnlyRatios(c) && Invariant(c, s) && Opens(c, s, e)
    ensures e.Response? && s.total > 0 && s.total >= c.minRequestAmount && Step(c, s, e).delay == 0
    ensures RatioReached(c, Step(c, s, e))
  {
    StepKeepsInvariant(c, s, e);
  }

  /** So a breaker with ratio thresholds alone is open only with requests counted,
      at least the configured minimum, a positive threshold and an amount of slow
      or failed responses that is at least that fraction of them. */
  lemma OpenShowsRatio(c: Config, events: seq<Event>)
    requires c.slowAmountThreshold == 0 && c.errorAmountThreshold == 0 && Run(c, events).degraded
    ensures var s := Run(c, events);
      s.total > 0 && s.total >= c.minRequestAmount &&
      ((c.slowRatioThreshold > 0.0 && s.slowAmount as real / s.total as real >= c.slowRatioThreshold) ||
       (c.errorRatioThreshold > 0.0 && s.errorAmount as real / s.total as real >= c.errorRatioThreshold))
  {
    var s := Run(c, events);
    InvariantHolds(c, events);
    QuotientReaches(s.slowAmount as real, s.total as real, c.slowRatioThreshold);
    QuotientReaches(s.errorAmount as real, s.total as real, c.errorRatioThreshold);
  }

  /** An amount when one more response is counted; it never exceeds the total. */
  function OneMoreOf(amount: nat, total: nat): (n: nat)
    ensures amount <= total ==> n <= total && (n == amount + 1 || n == amount == total)
  {
    if amount < total then amount + 1 else amount
  }

  /** A kind of response opens the breaker when the quota of its amount threshold
      is used up, or when its amount reaches the ratio of enough requests. */
  predicate Reached(c: Config, total: nat, amount: nat, quota: nat, amountThreshold: nat, ratioThreshold: real) {
    || (amountThreshold > 0 && quota == 0)
    || (ratioThreshold > 0.0 && total >= c.minRequestAmount && total > 0 &&
        OneMoreOf(amount, total) as real / total as real >= ratioThreshold)
  }

  lemma ErrorOpensExactly(c: Config, s: State, error: bool)
    requires !s.degraded
    ensures ErrorChecked(c, s, error).degraded <==>
      error && Reached(c, s.total, s.errorAmount, s.errorQuota, c.errorAmountThreshold, c.errorRatioThreshold)
  {
    var amount := OneMoreOf(s.errorAmount, s.total);
    if s.total > 0 { QuotientReaches(amount as real, s.total as real, c.errorRatioThreshold); }
  }

  lemma SlowOpensExactly(c: Config, s: State, slow: bool)
    requires !s.degraded
    ensures SlowChecked(c, s, slow).degraded <==>
      slow && Reached(c, s.total, s.slowAmount, s.slowQuota, c.slowAmountThreshold, c.slowRatioThreshold)
  {
    var amount := OneMoreOf(s.slowAmount, s.total);
    if s.total > 0 { QuotientReaches(amount as real, s.total as real, c.slowRatioThreshold); }
  }

  /** A closed breaker opens exactly on a failed or slow response that reaches a
      threshold of its kind. */
  lemma OpensExactly(c: Config, s: State, e: Event)
    requires !s.degraded
    ensures Opens(c, s, e) <==>
      && e.Response?
      && (|| (e.error &&
              Reached(c, s.total, s.errorAmount, s.errorQuota, c.errorAmountThreshold, c.errorRatioThreshold))
          || (e.slow &&
              Reached(c, s.total, s.slowAmount, s.slowQuota, c.slowAmountThreshold, c.slowRatioThreshold)))
  {
    if e.Response? {
      var s1 := ErrorChecked(c, s, e.error);
      ErrorOpensExactly(c, s, e.error);
      if !s1.degraded { SlowOpensExactly(c, s1, e.slow); }
    }
  }

  function Times(e: Event, n: nat): seq<Event> {
    seq(n, _ => e)
  }

  lemma OneMore(base: seq<Event>, e: Event, n: nat)
    requires n > 0
    ensures base + Times(e, n) != []
    ensures (base + Times(e, n))[..|base + Times(e, n)| - 1] == base + Times(e, n - 1)
    ensures (base + Times(e, n))[|base + Times(e, n)| - 1] == e
  {
  }

  /** Requests are counted and wait for their responses. */
  lemma {:induction false} RequestsPending(c: Config, base: seq<Event>, n: nat)
    requires Run(c, base) == Initial(c) && Plausible(c, base)
    ensures Run(c, base + Times(Request, n)) == Initial(c).(total := n)
    ensures Plausible(c, base + Times(Request, n)) && Pending(c, base + Times(Request, n)) == Pending(c, base) + n
  {
    if n == 0 {
      assert base + Times(Request, 0) == base;
    } else {
      OneMore(base, Request, n);
      RequestsPending(c, base, n - 1);
    }
  }

  /** A whole window of refreshes forgets them, while their responses are still out. */
  lemma {:induction false} WindowPasses(c: Config, base: seq<Event>, n: nat, i: nat)
    requires Run(c, base) == Initial(c).(total := n) && Plausible(c, base) && i <= c.statTimeWindow + 1
    ensures Run(c, base + Times(Refresh, i)) ==
      if i <= c.statTimeWindow then Initial(c).(total := n, tick := i) else Initial(c)
    ensures Plausible(c, base + Times(Refresh, i)) && Pending(c, base + Times(Refresh, i)) == Pending(c, base)
  {
    if i == 0 {
      assert base + Times(Refresh, 0) == base;
    } else {
      OneMore(base, Refresh, i);
      WindowPasses(c, base, n, i - 1);
    }
  }

  /** The response uses up a quota of an amount threshold. */
  predicate UsesQuota(c: Config, r: Event) {
    r.Response? && ((r.error && c.errorAmountThreshold > 0) || (r.slow && c.slowAmountThreshold > 0))
  }

  /** Late responses find no request counted, and use up the quotas until the
      breaker opens. */
  lemma {:induction false} LateResponses(c: Config, base: seq<Event>, r: Event, j: nat)
    requires Run(c, base) == Initial(c) && Plausible(c, base) && Pending(c, base) >= j && UsesQuota(c, r)
    ensures Plausible(c, base + Times(r, j)) && Pending(c, base + Times(r, j)) == Pending(c, base) - j
    ensures var s := Run(c, base + Times(r, j));
      && s.total == 0
      && (!s.degraded && r.error && c.errorAmountThreshold > 0 ==> s.errorQuota == c.errorAmountThreshold - 1 - j)
      && (!s.degraded && r.slow && c.slowAmountThreshold > 0 ==> s.slowQuota == c.slowAmountThreshold - 1 - j)
  {
    if j == 0 {
      assert base + Times(r, 0) == base;
    } else {
      OneMore(base, r, j);
      LateResponses(c, base, r, j - 1);
    }
  }

  /** A run that ends degraded has opened on the way. */
  lemma {:induction false} OpenedOnTheWay(c: Config, base: seq<Event>, r: Event, k: nat) returns (j: nat)
    requires k > 0 && !Run(c, base).degraded && Run(c, base + Times(r, k)).degraded
    ensures j < k && Opens(c, Run(c, base + Times(r, j)), r)
  {
    OneMore(base, r, k);
    assert base + Times(r, 0) == base;
    if Run(c, base + Times(r, k - 1)).degraded { j := OpenedOnTheWay(c, base, r, k - 1); } else { j := k - 1; }
  }

  /** The run: as many requests as responses are needed, then a whole window of
      refreshes without a response. */
  function QuietWindow(c: Config, k: nat): seq<Event> {
    [] + Times(Request, k) + Times(Refresh, c.statTimeWindow + 1)
  }

  /** With an amount threshold, late responses open the breaker though no request
      is counted: `k` of them, for the threshold `k` that they count against. */
  lemma LateResponsesOpen(c: Config, r: Event, k: nat) returns (j: nat)
    requires r.Response?
    requires (r.error && k == c.errorAmountThreshold > 0) || (r.slow && k == c.slowAmountThreshold > 0)
    ensures Plausible(c, QuietWindow(c, k) + Times(r, k))
    ensures Run(c, QuietWindow(c, k) + Times(r, k)).degraded && Run(c, QuietWindow(c, k) + Times(r, k)).total == 0
    ensures j < k && Plausible(c, QuietWindow(c, k) + Times(r, j) + [r])
    ensures Opens(c, Run(c, QuietWindow(c, k) + Times(r, j)), r) && Run(c, QuietWindow(c, k) + Times(r, j)).total == 0
  {
    var base := QuietWindow(c, k);
    RequestsPending(c, [], k);
    WindowPasses(c, [] + Times(Request, k), k, c.statTimeWindow + 1);
    LateResponses(c, base, r, k);
    j := OpenedOnTheWay(c, base, r, k);
    LateResponses(c, base, r, j);
    LateResponses(c, base, r, j + 1);
    OneMore(base, r, j + 1);
    assert base + Times(r, j) + [r] == base + Times(r, j + 1);
  }

  /** A kind of response, slow or failed. */
  function OfOneKind(slow: bool): Event {
    Response(slow, !slow)
  }

  /** With no ratio threshold for its kind, a closed breaker whose quota was just
      filled up opens on exactly the threshold-th response of the kind. */
  lemma {:induction false} AmountOpensExactly(c: Config, s: State, slow: bool, j: nat)
    requires !s.degraded
    requires if slow then c.slowAmountThreshold > 0 && c.slowRatioThreshold <= 0.0
      else c.errorAmountThreshold > 0 && c.errorRatioThreshold <= 0.0
    ensures var full := Step(c, s, if slow then RefillSlow else RefillError);
      var threshold := if slow then c.slowAmountThreshold else c.errorAmountThreshold;
      var s' := RunFrom(c, full, [] + Times(OfOneKind(slow), j));
      && (s'.degraded <==> j >= threshold)
      && (!s'.degraded ==> (if slow then s'.slowQuota else s'.errorQuota) + j + 1 == threshold)
  {
    if j == 0 {
      assert [] + Times(OfOneKind(slow), 0) == [];
    } else {
      OneMore([], OfOneKind(slow), j);
      AmountOpensExactly(c, s, slow, j - 1);
    }
  }

  /** In every plausible run each opening has requests counted, if and only if
      only ratio thresholds are set. */
  lemma OpeningNeedsRequestsExactly(c: Config)
    ensures (forall events, e :: Plausible(c, events + [e]) && Opens(c, Run(c, events), e) ==> Run(c, events).total > 0)
      <==> OnlyRatios(c)
  {
    if OnlyRatios(c) {
      forall events, e | Plausible(c, events + [e]) && Opens(c, Run(c, events), e)
        ensures Run(c, events).total > 0
      {
        InvariantHolds(c, events);
        OpeningNeedsRequests(c, Run(c, events), e);
      }
    } else {
      var k, r := c.slowAmountThreshold, Response(true, false);
      if c.errorAmountThreshold > 0 { k, r := c.errorAmountThreshold, Response(false, true); }
      var j := LateResponsesOpen(c, r, k);
      assert Plausible(c, QuietWindow(c, k) + Times(r, j) + [r]);
    }
  }

  // ----------------------------------------------------------------- the class

  class Breaker {
    const config: Config
    const slowTimeThreshold: real
    var tick: nat
    var delay: nat
    var total: nat
    var slowAmount: nat
    var errorAmount: nat
    var degraded: bool
    var slowQuota: nat
    var errorQuota: nat
    ghost var history: seq<Event>

    function Current(): State
      reads this
    {
      State(tick, delay, total, slowAmount, errorAmount, degraded, slowQuota, errorQuota)
    }

    /** The object's state is what its history makes it. */
    ghost predicate Valid()
      reads this
    {
      Current() == RunFrom(config, Initial(config), history)
    }

    constructor (config: Config, slowTimeThreshold: real)
      ensures Valid() && history == [] && this.config == config && this.slowTimeThreshold == slowTimeThreshold
    {
      this.config, this.slowTimeThreshold := config, slowTimeThreshold;
      tick, delay, total, slowAmount, errorAmount, degraded := 0, 0, 0, 0, 0, false;
      slowQuota := Minus1(config.slowAmountThreshold);
      errorQuota := Minus1(config.errorAmountThreshold);
      history := [];
    }

    /** The branch on `isDegraded`, and `increase` when the request is let through. */
    method OnRequest() returns (admitted: bool)
      requires Valid()
      modifies this
      ensures Valid() && history == old(history) + [Request] && admitted == !old(degraded)
    {
      admitted := !degraded;
      if admitted { total := total + 1; }
      history := history + [Request];
      assert history[..|history| - 1] == old(history);
    }

    method CheckSlow(seconds: real)
      modifies this
      ensures Current() == SlowChecked(config, old(Current()), seconds >= slowTimeThreshold) && history == old(history)
    {
      var enabled := config.slowAmountThreshold > 0 || config.slowRatioThreshold > 0.0;
      if enabled && seconds >= slowTimeThreshold {
        if slowAmount < total { slowAmount := slowAmount + 1; }
        var exhausted := config.slowAmountThreshold > 0 && slowQuota == 0;
        if config.slowAmountThreshold > 0 && slowQuota > 0 { slowQuota := slowQuota - 1; }
        if exhausted {
          degraded := true;
        } else if total > 0 {
          QuotientReaches(slowAmount as real, total as real, config.slowRatioThreshold);
          if config.slowRatioThreshold > 0.0 && total >= config.minRequestAmount &&
             slowAmount as real / total as real >= config.slowRatioThreshold {
            degraded := true;
          }
        }
      }
    }

    method CheckError(statusCode: nat)
      modifies this
      ensures Current() == ErrorChecked(config, old(Current()), statusCode > 499) && history == old(history)
    {
      var enabled := config.errorAmountThreshold > 0 || config.errorRatioThreshold > 0.0;
      if enabled && statusCode > 499 {
        if errorAmount < total { errorAmount := errorAmount + 1; }
        var exhausted := config.errorAmountThreshold > 0 && errorQuota == 0;
        if config.errorAmountThreshold > 0 && errorQuota > 0 { errorQuota := errorQuota - 1; }
        if exhausted {
          degraded := true;
        } else if total > 0 {
          QuotientReaches(errorAmount as real, total as real, config.errorRatioThreshold);
          if config.errorRatioThreshold > 0.0 && total >= config.minRequestAmount &&
             errorAmount as real / total as real >= config.errorRatioThreshold {
            degraded := true;
          }
        }
      }
    }

    /** The head of a response arrives. */
    method OnResponse(statusCode: nat, seconds: real)
      requires Valid()
      modifies this
      ensures Valid() && history == old(history) + [Response(seconds >= slowTimeThreshold, statusCode > 499)]
    {
      CheckError(statusCode);
      CheckSlow(seconds);
      history := history + [Response(seconds >= slowTimeThreshold, statusCode > 499)];
      assert history[..|history| - 1] == old(history);
    }

    method RefreshTimer()
      requires Valid()
      modifies this
      ensures Valid() && history == old(history) + [Refresh]
    {
      ghost var s := Current();
      if degraded {
        delay := delay + 1;
        if delay > config.degradedTimeWindow {
          degraded := false;
          delay, tick, total, slowAmount, errorAmount := 0, 0, 0, 0, 0;
        }
      }
      if !degraded {
        tick := tick + 1;
        if tick > config.statTimeWindow {
          tick, total, slowAmount, errorAmount := 0, 0, 0, 0;
        }
      }
      assert Current() == Refreshed(config, s);
      history := history + [Refresh];
      assert history[..|history| - 1] == old(history);
    }
  }
}
