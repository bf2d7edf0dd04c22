/** The circuit-break filter of src/filters/http/CircuitBreak.js: its counters
    live in a map shared by all requests, which interleave with the responses of
    earlier ones. Times are those of one clock that never runs backwards. */
module SharedBreaker {
  import opened Ratios

  datatype Config = Config(
    latencyThreshold: real, errorCountThreshold: int, errorRatioThreshold: real,
    concurrencyThreshold: int, checkInterval: real, breakInterval: real)

  /** The shared map, and the requests that were let through and not answered
      yet, by the time they were made. */
  datatype State = State(
    start: real, concurrency: int, total: int, error: int, brokenBefore: real,
    pending: multiset<real>)

  const INITIAL := State(0.0, 0, 0, 0, 0.0, multiset{})

  datatype Event = Request(t: real) | Response(t: real, requestTime: real)

  predicate IsBroken(s: State, t: real) {
    s.brokenBefore != 0.0 && t < s.brokenBefore
  }

  /** The counters after a response is counted, before any decision. */
  function Counted(c: Config, s: State, t: real, requestTime: real): State {
    s.(total := s.total + 1, error := if t - requestTime >= c.latencyThreshold then s.error + 1 else s.error)
  }

  /** `error / total >= ratio`, for a positive total. */
  predicate RatioMet(error: int, total: int, ratio: real) {
    error as real >= ratio * total as real
  }

  /** All thresholds hold. */
  predicate Trips(c: Config, s: State) {
    s.total > 0 && s.concurrency >= c.concurrencyThreshold && s.error >= c.errorCountThreshold &&
    RatioMet(s.error, s.total, c.errorRatioThreshold)
  }

  function Checked(c: Config, s: State, t: real, requestTime: real): State {
    var s1 := Counted(c, s, t, requestTime);
    if Trips(c, s1) then s1.(brokenBefore := t + c.breakInterval, start := 0.0, total := 0, error := 0)
    else if s1.start != 0.0 && t - s1.start >= c.checkInterval then s1.(start := t, total := 0, error := 0)
    else s1.(start := t)
  }

  function Answered(s: State, requestTime: real): State {
    s.(concurrency := s.concurrency - 1, pending := s.pending - multiset{requestTime})
  }

  function Step(c: Config, s: State, e: Event): State {
    match e
    case Request(t) => if IsBroken(s, t) then s
      else s.(concurrency := s.concurrency + 1, pending := s.pending + multiset{t})
    case Response(t, requestTime) => Checked(c, Answered(s, requestTime), t, requestTime)
  }

  function Run(c: Config, events: seq<Event>): State {
    if events == [] then INITIAL else Step(c, Run(c, events[..|events| - 1]), events[|events| - 1])
  }

  /** The clock is positive and never runs back, and every response answers a
      request that was let through and is not answered yet. */
  predicate Plausible(c: Config, events: seq<Event>) {
    if events == [] then true
    else
      var init, e := events[..|events| - 1], events[|events| - 1];
      && Plausible(c, init) && e.t > 0.0
      && (init != [] ==> init[|init| - 1].t <= e.t)
      && (e.Response? ==> e.requestTime in Run(c, init).pending)
  }

  // ------------------------------------------------------------------- safety

  /** In every reachable state the errors are at most the total, and concurrency
      is the number of requests let through and not answered. */
  lemma {:induction false} CountersAgree(c: Config, events: seq<Event>)
    requires Plausible(c, events)
    ensures var s := Run(c, events); 0 <= s.error <= s.total && s.concurrency == |s.pending|
  {
    if events != [] { CountersAgree(c, events[..|events| - 1]); }
  }

  /** The event is a response that leaves all thresholds met. */
  predicate TripsOn(c: Config, s: State, e: Event) {
    e.Response? && Trips(c, Counted(c, Answered(s, e.requestTime), e.t, e.requestTime))
  }

  /** A response trips the breaker exactly when, with itself counted, the requests
      still waiting, the late responses and their fraction of all responses have
      reached the thresholds. */
  lemma TripsOnExactly(c: Config, s: State, t: real, requestTime: real)
    requires s.total >= 0
    ensures var late := if t - requestTime >= c.latencyThreshold then s.error + 1 else s.error;
      TripsOn(c, s, Response(t, requestTime)) <==>
        && s.concurrency > c.concurrencyThreshold && late >= c.errorCountThreshold
        && late as real / (s.total + 1) as real >= c.errorRatioThreshold
  {
    var late := if t - requestTime >= c.latencyThreshold then s.error + 1 else s.error;
    QuotientReaches(late as real, (s.total + 1) as real, c.errorRatioThreshold);
  }

  lemma StepBreaks(c: Config, s: State, e: Event)
    ensures Step(c, s, e).brokenBefore == if TripsOn(c, s, e) then e.t + c.breakInterval else s.brokenBefore
  {
  }

  /** The times at which the breaker tripped, in order. */
  function TripTimes(c: Config, events: seq<Event>): seq<real> {
    if events == [] then []
    else
      var init, e := events[..|events| - 1], events[|events| - 1];
      TripTimes(c, init) + if TripsOn(c, Run(c, init), e) then [e.t] else []
  }

  /** The trips happened at positive times, in order, and not after the last event. */
  lemma {:induction false} TripsAreOrdered(c: Config, events: seq<Event>)
    requires Plausible(c, events)
    ensures var trips := TripTimes(c, events);
      && (forall i :: 0 <= i < |trips| ==> 0.0 < trips[i] <= events[|events| - 1].t)
      && (forall i, j :: 0 <= i <= j < |trips| ==> trips[i] <= trips[j])
  {
    if events != [] {
      var init, e := events[..|events| - 1], events[|events| - 1];
      TripsAreOrdered(c, init);
      assert init != [] || TripTimes(c, init) == [];
      assert TripTimes(c, events) == TripTimes(c, init) || TripTimes(c, events) == TripTimes(c, init) + [e.t];
    }
  }

  lemma TripsGrow(c: Config, events: seq<Event>, init: seq<Event>, e: Event, s: State, trips: seq<real>)
    requires events == init + [e] && s == Run(c, init) && trips == TripTimes(c, init)
    ensures Run(c, events) == Step(c, s, e)
    ensures TripTimes(c, events) == if TripsOn(c, s, e) then trips + [e.t] else trips
  {
    assert events[..|events| - 1] == init;
  }

  lemma TripMovesBreak(c: Config, s: State, e: Event, trips: seq<real>)
    requires s.brokenBefore == AfterLastTrip(c, trips)
    ensures Step(c, s, e).brokenBefore == AfterLastTrip(c, if TripsOn(c, s, e) then trips + [e.t] else trips)
  {
    StepBreaks(c, s, e);
  }

  function AfterLastTrip(c: Config, trips: seq<real>): real {
    if trips == [] then 0.0 else trips[|trips| - 1] + c.breakInterval
  }

  /** The time before which the breaker is open: one break interval after its
      last trip, 0 if there was none. */
  lemma {:induction false} BrokenBeforeIsLastTrip(c: Config, events: seq<Event>)
    ensures Run(c, events).brokenBefore == AfterLastTrip(c, TripTimes(c, events))
  {
    if events != [] {
      var init, e := events[..|events| - 1], events[|events| - 1];
      BrokenBeforeIsLastTrip(c, init);
      TripMovesBreak(c, Run(c, init), e, TripTimes(c, init));
      TripsGrow(c, events, init, e, Run(c, init), TripTimes(c, init));
    }
  }

  /** Requests are denied exactly within one break interval after some trip. */
  lemma DeniedExactly(c: Config, events: seq<Event>, t: real)
    requires Plausible(c, events + [Request(t)]) && c.breakInterval >= 0.0
    ensures IsBroken(Run(c, events), t) <==>
      exists i :: 0 <= i < |TripTimes(c, events)| && t < TripTimes(c, events)[i] + c.breakInterval
  {
    assert (events + [Request(t)])[..|events|] == events;
    BrokenBeforeIsLastTrip(c, events);
    TripsAreOrdered(c, events);
    var trips := TripTimes(c, events);
    if trips != [] { assert trips[|trips| - 1] > 0.0; }
  }

  /** `brokenBefore` never moves back, and it moves only when a response leaves
      all thresholds met. */
  lemma BreakOnlyExtends(c: Config, events: seq<Event>, e: Event)
    requires Plausible(c, events + [e]) && c.breakInterval >= 0.0
    ensures Run(c, events + [e]).brokenBefore >= Run(c, events).brokenBefore
    ensures Run(c, events + [e]).brokenBefore != Run(c, events).brokenBefore ==>
      TripsOn(c, Run(c, events), e)
  {
    StepBreaks(c, Run(c, events), e);
    assert (events + [e])[..|events|] == events;
    BrokenBeforeIsLastTrip(c, events);
    TripsAreOrdered(c, events);
    var trips := TripTimes(c, events);
    if trips != [] { assert trips[|trips| - 1] <= events[|events| - 1].t; }
  }

  /** A denied request leaves every counter as it was. */
  lemma DeniedTouchesNothing(c: Config, events: seq<Event>, t: real)
    requires IsBroken(Run(c, events), t)
    ensures Run(c, events + [Request(t)]) == Run(c, events)
  {
    assert (events + [Request(t)])[..|events|] == events;
  }

  // -------------------------------------------------------------- the window

  /** The time of the last response, unless it tripped the breaker; 0 if none. */
  function LastAnswer(c: Config, events: seq<Event>): real {
    if events == [] then 0.0
    else
      var init, e := events[..|events| - 1], events[|events| - 1];
      if e.Request? then LastAnswer(c, init) else if TripsOn(c, Run(c, init), e) then 0.0 else e.t
  }

  /** The response trips the breaker, or comes checkInterval or more after the
      response before it. */
  predicate Resets(c: Config, init: seq<Event>, e: Event) {
    e.Response? && (
      TripsOn(c, Run(c, init), e) ||
      (LastAnswer(c, init) != 0.0 && e.t - LastAnswer(c, init) >= c.checkInterval))
  }

  /** How many events there were up to and with the last such response. */
  function ResetAt(c: Config, events: seq<Event>): (n: nat)
    ensures n <= |events|
  {
    if events == [] then 0
    else if Resets(c, events[..|events| - 1], events[|events| - 1]) then |events|
    else ResetAt(c, events[..|events| - 1])
  }

  function Responses(events: seq<Event>): nat {
    if events == [] then 0 else Responses(events[..|events| - 1]) + if events[|events| - 1].Response? then 1 else 0
  }

  predicate IsLate(c: Config, e: Event) {
    e.Response? && e.t - e.requestTime >= c.latencyThreshold
  }

  /** The responses that took latencyThreshold or longer. */
  function Late(c: Config, events: seq<Event>): nat {
    if events == [] then 0
    else
      var e := events[|events| - 1];
      Late(c, events[..|events| - 1]) + if IsLate(c, e) then 1 else 0
  }

  lemma {:induction false} StartIsLastAnswer(c: Config, events: seq<Event>)
    requires Plausible(c, events)
    ensures Run(c, events).start == LastAnswer(c, events)
  {
    if events != [] { StartIsLastAnswer(c, events[..|events| - 1]); }
  }

  /** What one more event does to the counts of a suffix. */
  lemma SuffixGrows(c: Config, events: seq<Event>, n: nat)
    requires n < |events|
    ensures var init, e := events[..|events| - 1], events[|events| - 1];
      && Responses(events[n..]) == Responses(init[n..]) + (if e.Response? then 1 else 0)
      && Late(c, events[n..]) == Late(c, init[n..]) + (if IsLate(c, e) then 1 else 0)
  {
    assert events[n..][..|events[n..]| - 1] == events[..|events| - 1][n..];
  }

  /** What one more event does to the statistics. */
  lemma StatisticsStep(c: Config, s: State, e: Event)
    ensures var s' := Step(c, s, e);
      if TripsOn(c, s, e) || (e.Response? && s.start != 0.0 && e.t - s.start >= c.checkInterval)
      then s'.total == 0 && s'.error == 0
      else s'.total == s.total + (if e.Response? then 1 else 0) && s'.error == s.error + (if IsLate(c, e) then 1 else 0)
  {
    if e.Response? {
      var s1 := Counted(c, Answered(s, e.requestTime), e.t, e.requestTime);
      assert TripsOn(c, s, e) == Trips(c, s1);
    }
  }

  /** Closed form of the statistics: in every run `start` is the time of the last
      response, and `total` and `error` count the responses and the late ones since
      the last trip or the last gap of checkInterval, which the response that ends
      the gap is not part of. So checkInterval bounds gaps, not the age of what is
      counted. */
  lemma {:induction false} TotalSinceReset(c: Config, events: seq<Event>)
    requires Plausible(c, events)
    ensures Run(c, events).start == LastAnswer(c, events)
    ensures Run(c, events).total == Responses(events[ResetAt(c, events)..])
    ensures Run(c, events).error == Late(c, events[ResetAt(c, events)..])
  {
    StartIsLastAnswer(c, events);
    if events != [] {
      var init, e := events[..|events| - 1], events[|events| - 1];
      TotalSinceReset(c, init);
      StatisticsStep(c, Run(c, init), e);
      if Resets(c, init, e) {
        assert events[|events|..] == [];
      } else {
        SuffixGrows(c, events, ResetAt(c, init));
      }
    }
  }

  /** Nothing expires while responses come closer together than that. */
  lemma SteadyTrafficNeverExpires(c: Config, events: seq<Event>)
    requires Plausible(c, events)
    requires forall n :: 0 <= n < |events| ==> !Resets(c, events[..n], events[n])
    ensures Run(c, events).total == Responses(events)
  {
    TotalSinceReset(c, events);
    NeverReset(c, events);
    assert events[0..] == events;
  }

  lemma {:induction false} NeverReset(c: Config, events: seq<Event>)
    requires forall n :: 0 <= n < |events| ==> !Resets(c, events[..n], events[n])
    ensures ResetAt(c, events) == 0
  {
    if events != [] {
      var init := events[..|events| - 1];
      assert forall n :: 0 <= n < |init| ==> init[..n] == events[..n];
      NeverReset(c, init);
    }
  }

  // ----------------------------------------------------------------- the class

  class Filter {
    const config: Config
    var start: real
    var concurrency: int
    var total: int
    var error: int
    var brokenBefore: real
    ghost var events: seq<Event>

    ghost predicate Valid()
      reads this
    {
      && Plausible(config, events)
      && State(start, concurrency, total, error, brokenBefore, Run(config, events).pending) == Run(config, events)
    }

    constructor (config: Config)
      ensures Valid() && events == [] && this.config == config
    {
      this.config := config;
      start, concurrency, total, error, brokenBefore, events := 0.0, 0, 0, 0, 0.0, [];
    }

    /** The head of a request: pass or deny. */
    method OnRequest(now: real) returns (pass: bool)
      requires Valid() && now > 0.0 && (events != [] ==> events[|events| - 1].t <= now)
      modifies this
      ensures Valid() && events == old(events) + [Request(now)]
      ensures pass == !IsBroken(Run(config, old(events)), now)
    {
      pass := !(brokenBefore != 0.0 && now < brokenBefore);
      if pass { concurrency := concurrency + 1; }
      events := events + [Request(now)];
      assert events[..|events| - 1] == old(events);
    }

    /** `check`, for a request made at `requestTime`. */
    method Check(now: real, requestTime: real, ghost pending: multiset<real>)
      modifies this
      ensures events == old(events)
      ensures State(start, concurrency, total, error, brokenBefore, pending) ==
        Checked(config, old(State(start, concurrency, total, error, brokenBefore, pending)), now, requestTime)
    {
      total := total + 1;
      if now - requestTime >= config.latencyThreshold { error := error + 1; }
      if total > 0 { QuotientReaches(error as real, total as real, config.errorRatioThreshold); }
      if total > 0 && concurrency >= config.concurrencyThreshold && error >= config.errorCountThreshold
        && error as real / total as real >= config.errorRatioThreshold {
        brokenBefore := now + config.breakInterval;
        start, total, error := 0.0, 0, 0;
      } else if start != 0.0 && now - start >= config.checkInterval {
        start, total, error := now, 0, 0;
      } else {
        start := now;
      }
    }

    /** The head of the response to a request that was let through. */
    method OnResponse(now: real, requestTime: real)
      requires Valid() && now > 0.0 && (events != [] ==> events[|events| - 1].t <= now)
      requires requestTime in Run(config, events).pending
      modifies this
      ensures Valid() && events == old(events) + [Response(now, requestTime)]
    {
      ghost var s := Run(config, events);
      ghost var e := Response(now, requestTime);
      concurrency := concurrency - 1;
      Check(now, requestTime, Answered(s, requestTime).pending);
      events := events + [e];
      assert events[..|events| - 1] == old(events);
      assert Run(config, events) == Checked(config, Answered(s, requestTime), now, requestTime);
    }
  }
}
