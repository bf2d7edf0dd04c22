/** Health checks of pjs/common/health-check.js: one service with its targets and
    the cache of unhealthy ones that the balancers consult. Active probes, passive
    failures and the one-second recovery task interleave freely. */
module ServiceHealth {

  /** A service is checked only if maxFails is positive. */
  datatype Config = Config(interval: int, maxFails: int, failTimeout: int)

  predicate Checked(c: Config) {
    c.maxFails > 0 && (c.interval > 0 || c.failTimeout > 0)
  }

  /** No active probe: a down target comes back by time alone. */
  predicate Passive(c: Config) {
    c.failTimeout > 0 && !(c.interval > 0)
  }

  datatype Target = Target(alive: bool, errorCount: nat, failTick: nat)

  datatype State = State(targets: map<string, Target>, unhealthy: set<string>)

  datatype Event = Ok(name: string) | Fail(name: string) | Tick

  function Initial(names: set<string>): State {
    State(map name | name in names :: Target(true, 0, 0), {})
  }

  function OkTarget(t: Target): Target {
    if t.alive then t else t.(alive := true, errorCount := 0)
  }

  function FailTarget(c: Config, t: Target): Target {
    var t' := t.(errorCount := t.errorCount + 1);
    if t'.errorCount >= c.maxFails && t.alive then t'.(alive := false, failTick := 0) else t'
  }

  function TickTarget(c: Config, t: Target): Target {
    if !t.alive && Passive(c) then
      var t' := t.(failTick := t.failTick + 1);
      if t'.failTick >= c.failTimeout then OkTarget(t') else t'
    else t
  }

  /** The cache after one target changed: `fail` puts in a target that goes down,
      `ok` takes out one that comes back. */
  function Reindexed(unhealthy: set<string>, name: string, before: Target, after: Target): set<string> {
    if before.alive && !after.alive then unhealthy + {name}
    else if !before.alive && after.alive then unhealthy - {name}
    else unhealthy
  }

  function Changed(s: State, name: string, t: Target): State
    requires name in s.targets
  {
    State(s.targets[name := t], Reindexed(s.unhealthy, name, s.targets[name], t))
  }

  function Step(c: Config, s: State, e: Event): State {
    match e
    case Ok(name) => if name in s.targets then Changed(s, name, OkTarget(s.targets[name])) else s
    case Fail(name) => if name in s.targets then Changed(s, name, FailTarget(c, s.targets[name])) else s
    case Tick => State(
      map name | name in s.targets :: TickTarget(c, s.targets[name]),
      set name | name in s.unhealthy &&
        !(name in s.targets && !s.targets[name].alive && TickTarget(c, s.targets[name]).alive))
  }

  function Run(c: Config, names: set<string>, events: seq<Event>): State {
    if events == [] then Initial(names) else Step(c, Run(c, names, events[..|events| - 1]), events[|events| - 1])
  }

  // ------------------------------------------------------------ index agreement

  /** A target is down exactly when it is in the cache, and exactly when the
      failures counted against it number at least maxFails. */
  ghost predicate IndexAgrees(c: Config, s: State) {
    && s.unhealthy <= s.targets.Keys
    && forall name :: name in s.targets ==>
         && (s.targets[name].alive <==> name !in s.unhealthy)
         && (s.targets[name].alive <==> s.targets[name].errorCount < c.maxFails)
  }

  lemma {:induction false} IndexAlwaysAgrees(c: Config, names: set<string>, events: seq<Event>)
    requires Checked(c)
    ensures IndexAgrees(c, Run(c, names, events)) && Run(c, names, events).targets.Keys == names
  {
    if events != [] {
      IndexAlwaysAgrees(c, names, events[..|events| - 1]);
    }
  }

  // ---------------------------------------------------- what is counted over runs

  function TargetAt(c: Config, names: set<string>, events: seq<Event>, name: string): Target {
    var s := Run(c, names, events);
    if name in s.targets then s.targets[name] else Target(true, 0, 0)
  }

  /** The last event brought the target back up. */
  predicate Recovered(c: Config, names: set<string>, events: seq<Event>, name: string) {
    events != [] && !TargetAt(c, names, events[..|events| - 1], name).alive && TargetAt(c, names, events, name).alive
  }

  function FailuresSinceRecovery(c: Config, names: set<string>, events: seq<Event>, name: string): nat {
    if events == [] || Recovered(c, names, events, name) then 0
    else
      FailuresSinceRecovery(c, names, events[..|events| - 1], name) +
      if events[|events| - 1] == Fail(name) then 1 else 0
  }

  /** The consecutive failures: those since the last success or recovery. */
  function TrailingFailures(c: Config, names: set<string>, events: seq<Event>, name: string): nat {
    if events == [] || events[|events| - 1] == Ok(name) || Recovered(c, names, events, name) then 0
    else
      TrailingFailures(c, names, events[..|events| - 1], name) +
      if events[|events| - 1] == Fail(name) then 1 else 0
  }

  /** Since the last recovery a success interrupted failures. */
  predicate SuccessIgnored(c: Config, names: set<string>, events: seq<Event>, name: string) {
    if events == [] || Recovered(c, names, events, name) then false
    else
      var init := events[..|events| - 1];
      SuccessIgnored(c, names, init, name) ||
      (events[|events| - 1] == Ok(name) && TrailingFailures(c, names, init, name) > 0)
  }

  /** In every run errorCount is the number of failures since the last recovery. */
  lemma {:induction false} CountsSinceRecovery(c: Config, names: set<string>, events: seq<Event>, name: string)
    requires Checked(c) && name in names
    ensures TargetAt(c, names, events, name).errorCount == FailuresSinceRecovery(c, names, events, name)
  {
    IndexAlwaysAgrees(c, names, events);
    if events != [] {
      IndexAlwaysAgrees(c, names, events[..|events| - 1]);
      CountsSinceRecovery(c, names, events[..|events| - 1], name);
    }
  }

  /** That is at least the number of consecutive failures, and the same exactly
      when no success since the recovery interrupted failures. */
  lemma {:induction false} TrailingExactly(c: Config, names: set<string>, events: seq<Event>, name: string)
    requires Checked(c) && name in names
    ensures TrailingFailures(c, names, events, name) <= FailuresSinceRecovery(c, names, events, name)
    ensures TrailingFailures(c, names, events, name) == FailuresSinceRecovery(c, names, events, name) <==>
      !SuccessIgnored(c, names, events, name)
  {
    if events != [] {
      TrailingExactly(c, names, events[..|events| - 1], name);
    }
  }

  /** A target goes down as documented, by maxFails consecutive failures, exactly
      when no success since its last recovery interrupted failures. */
  lemma GoesDownAsDocumentedExactly(c: Config, names: set<string>, events: seq<Event>, name: string)
    requires Checked(c) && name in names
    requires TargetAt(c, names, events, name).alive && !TargetAt(c, names, events + [Fail(name)], name).alive
    ensures TrailingFailures(c, names, events + [Fail(name)], name) >= c.maxFails <==>
      !SuccessIgnored(c, names, events + [Fail(name)], name)
  {
    var all := events + [Fail(name)];
    assert all[..|events|] == events;
    IndexAlwaysAgrees(c, names, events);
    CountsSinceRecovery(c, names, events, name);
    TrailingExactly(c, names, all, name);
  }

  /** Down means maxFails consecutive failures. */
  predicate DownAsDocumented(c: Config, names: set<string>, events: seq<Event>, name: string) {
    !TargetAt(c, names, events, name).alive <==> TrailingFailures(c, names, events, name) >= c.maxFails
  }

  /** That holds in all states of all runs exactly when a single failure is enough. */
  lemma DocumentedExactly(c: Config)
    requires Checked(c)
    ensures (forall names: set<string>, events, name :: name in names ==> DownAsDocumented(c, names, events, name)) <==>
      c.maxFails == 1
  {
    if c.maxFails == 1 {
      forall names: set<string>, events, name | name in names
        ensures DownAsDocumented(c, names, events, name)
      {
        SingleFailureIsEnough(c, names, events, name);
      }
    } else {
      var failures := Failures("t", c.maxFails - 1);
      SeparateFailuresTakeDown(c, "t");
      assert !DownAsDocumented(c, {"t"}, failures + [Ok("t")] + [Fail("t")], "t");
    }
  }

  lemma {:induction false} SingleFailureIsEnough(c: Config, names: set<string>, events: seq<Event>, name: string)
    requires Checked(c) && c.maxFails == 1 && name in names
    ensures !SuccessIgnored(c, names, events, name) && DownAsDocumented(c, names, events, name)
  {
    if events != [] {
      var init := events[..|events| - 1];
      SingleFailureIsEnough(c, names, init, name);
      IndexAlwaysAgrees(c, names, init);
    }
    IndexAlwaysAgrees(c, names, events);
    CountsSinceRecovery(c, names, events, name);
    TrailingExactly(c, names, events, name);
  }

  function Failures(name: string, k: nat): seq<Event> {
    seq(k, _ => Fail(name))
  }

  lemma {:induction false} FailuresLeaveUp(c: Config, name: string, k: nat)
    requires k < c.maxFails
    ensures TargetAt(c, {name}, Failures(name, k), name) == Target(true, k, 0)
    ensures name in Run(c, {name}, Failures(name, k)).targets
  {
    if k > 0 {
      FailuresLeaveUp(c, name, k - 1);
      assert Failures(name, k)[..k - 1] == Failures(name, k - 1);
    }
  }

  /** From maxFails 2 on, failures with a success between them take a target down
      that has not failed so often in a row. */
  lemma SeparateFailuresTakeDown(c: Config, name: string)
    requires c.maxFails >= 2
    ensures var events := Failures(name, c.maxFails - 1) + [Ok(name)] + [Fail(name)];
      !TargetAt(c, {name}, events, name).alive && TrailingFailures(c, {name}, events, name) == 1
  {
    var first := Failures(name, c.maxFails - 1);
    FailuresLeaveUp(c, name, c.maxFails - 1);
    assert (first + [Ok(name)])[..|first|] == first;
    assert (first + [Ok(name)] + [Fail(name)])[..|first| + 1] == first + [Ok(name)];
    assert TargetAt(c, {name}, first + [Ok(name)], name) == Target(true, c.maxFails - 1, 0);
  }

  // ------------------------------------------------------------- timed recovery

  function RunFrom(c: Config, s: State, events: seq<Event>): State {
    if events == [] then s else Step(c, RunFrom(c, s, events[..|events| - 1]), events[|events| - 1])
  }

  function Ticks(events: seq<Event>): nat {
    if events == [] then 0 else Ticks(events[..|events| - 1]) + if events[|events| - 1].Tick? then 1 else 0
  }

  /** A passive target that has just gone down stays down while fewer than
      failTimeout ticks pass, however many further failures arrive. */
  lemma {:induction false} StaysDown(c: Config, s: State, name: string, events: seq<Event>)
    requires Passive(c) && name in s.targets && !s.targets[name].alive && s.targets[name].failTick == 0
    requires Ok(name) !in events && Ticks(events) < c.failTimeout
    ensures var s' := RunFrom(c, s, events);
      name in s'.targets && !s'.targets[name].alive && s'.targets[name].failTick == Ticks(events)
  {
    if events != [] {
      var init, e := events[..|events| - 1], events[|events| - 1];
      assert e in events && forall x :: x in init ==> x in events;
      StaysDown(c, s, name, init);
    }
  }

  /** It recovers on exactly the failTimeout-th tick. */
  lemma RecoversOnTime(c: Config, s: State, name: string, events: seq<Event>)
    requires Checked(c) && IndexAgrees(c, s)
    requires Passive(c) && name in s.targets && !s.targets[name].alive && s.targets[name].failTick == 0
    requires Ok(name) !in events && Ticks(events) == c.failTimeout - 1
    ensures var s' := RunFrom(c, s, events + [Tick]);
      name in s'.targets && s'.targets[name].alive && s'.targets[name].errorCount == 0 && name !in s'.unhealthy
  {
    StaysDown(c, s, name, events);
    assert (events + [Tick])[..|events|] == events;
  }

  /** With active probes, or without a failTimeout, time alone brings nothing back: a
      target that is down stays down until a success. */
  lemma {:induction false} ProbedStaysDown(c: Config, s: State, name: string, events: seq<Event>)
    requires c.interval > 0 || c.failTimeout <= 0
    requires name in s.targets && !s.targets[name].alive && Ok(name) !in events
    ensures var s' := RunFrom(c, s, events); name in s'.targets && !s'.targets[name].alive
  {
    if events != [] {
      var init, e := events[..|events| - 1], events[|events| - 1];
      assert e in events && forall x :: x in init ==> x in events;
      ProbedStaysDown(c, s, name, init);
    }
  }

  lemma {:induction false} RunContinues(c: Config, names: set<string>, events: seq<Event>, more: seq<Event>)
    ensures Run(c, names, events + more) == RunFrom(c, Run(c, names, events), more)
  {
    if more == [] {
      assert events + more == events;
    } else {
      assert (events + more)[..|events + more| - 1] == events + more[..|more| - 1];
      RunContinues(c, names, events, more[..|more| - 1]);
    }
  }

  /** In any run: when a failure takes a passive target down and no success comes,
      it is down until the failTimeout-th tick from then on, and that tick brings
      it back, with nothing counted against it. */
  lemma DownForExactlyTheTimeout(
      c: Config, names: set<string>, events: seq<Event>, name: string, more: seq<Event>)
    requires Checked(c) && Passive(c) && name in names && Ok(name) !in more
    requires TargetAt(c, names, events, name).alive && !TargetAt(c, names, events + [Fail(name)], name).alive
    ensures var all := events + [Fail(name)] + more;
      && (Ticks(more) < c.failTimeout ==> !TargetAt(c, names, all, name).alive)
      && (Ticks(more) == c.failTimeout - 1 ==>
           TargetAt(c, names, all + [Tick], name).alive && TargetAt(c, names, all + [Tick], name).errorCount == 0)
  {
    var down := events + [Fail(name)];
    var s := Run(c, names, down);
    assert down[..|events|] == events;
    IndexAlwaysAgrees(c, names, events);
    IndexAlwaysAgrees(c, names, down);
    assert s.targets[name].failTick == 0;
    RunContinues(c, names, down, more);
    RunContinues(c, names, down, more + [Tick]);
    assert down + more + [Tick] == down + (more + [Tick]);
    if Ticks(more) < c.failTimeout { StaysDown(c, s, name, more); }
    if Ticks(more) == c.failTimeout - 1 { RecoversOnTime(c, s, name, more); }
  }

  // ------------------------------------------------------------------ the class

  /** The target objects and the cache, updated in place. */
  class Service {
    const config: Config
    var targets: map<string, Target>
    var unhealthy: set<string>
    ghost const names: set<string>
    ghost var history: seq<Event>

    ghost predicate Valid()
      reads this
    {
      Checked(config) && State(targets, unhealthy) == Run(config, names, history)
    }

    constructor (config: Config, endpoints: set<string>)
      requires Checked(config)
      ensures Valid() && history == [] && this.config == config && names == endpoints
    {
      this.config := config;
      names := endpoints;
      targets := map name | name in endpoints :: Target(true, 0, 0);
      unhealthy := {};
      history := [];
    }

    /** What `ok` changes. */
    method Revive(name: string)
      requires name in targets
      modifies this`targets, this`unhealthy
      ensures State(targets, unhealthy) == Changed(old(State(targets, unhealthy)), name, OkTarget(old(targets[name])))
    {
      if !targets[name].alive {
        targets := targets[name := targets[name].(alive := true, errorCount := 0)];
        if name in unhealthy { unhealthy := unhealthy - {name}; }
      }
    }

    method OnOk(name: string)
      requires Valid() && name in targets
      modifies this
      ensures Valid() && history == old(history) + [Ok(name)]
    {
      Revive(name);
      history := history + [Ok(name)];
      assert history[..|history| - 1] == old(history);
    }

    method OnFail(name: string)
      requires Valid() && name in targets
      modifies this
      ensures Valid() && history == old(history) + [Fail(name)]
    {
      var t := targets[name];
      targets := targets[name := t.(errorCount := t.errorCount + 1)];
      if t.errorCount + 1 >= config.maxFails && t.alive {
        targets := targets[name := targets[name].(alive := false, failTick := 0)];
        if name !in unhealthy { unhealthy := unhealthy + {name}; }
      }
      history := history + [Fail(name)];
      assert history[..|history| - 1] == old(history);
    }

    /** The recovery task. */
    method OnTick()
      requires Valid()
      modifies this
      ensures Valid() && history == old(history) + [Tick]
    {
      IndexAlwaysAgrees(config, names, history);
      ghost var s := State(targets, unhealthy);
      var todo := targets.Keys;
      while todo != {}
        invariant todo <= targets.Keys == s.targets.Keys
        invariant forall name :: name in todo ==> targets[name] == s.targets[name]
        invariant forall name :: name in targets && name !in todo ==>
          targets[name] == TickTarget(config, s.targets[name])
        invariant unhealthy <= targets.Keys
        invariant forall name :: name in targets ==> (name in unhealthy <==> !targets[name].alive)
        invariant history == old(history)
        decreases todo
      {
        var name :| name in todo;
        var t := targets[name];
        if !t.alive && config.failTimeout > 0 && !(config.interval > 0) {
          targets := targets[name := t.(failTick := t.failTick + 1)];
          if t.failTick + 1 >= config.failTimeout { Revive(name); }
        }
        todo := todo - {name};
      }
      assert targets == Step(config, s, Tick).targets;
      assert unhealthy == Step(config, s, Tick).unhealthy;
      history := history + [Tick];
      assert history[..|history| - 1] == old(history);
    }
  }
}
