/** Health checks of src/modules/health-check.js: the targets of one backend
    during one policy, and the shared set of unhealthy addresses. */
module BackendHealth {

  /** `healthCheck` as it applies to one target. No interval means no probes. */
  datatype Policy = Policy(maxFails: int, interval: real, failTimeout: real)

  datatype Target = Target(address: string, policy: Policy, isHealthy: bool, failCount: nat, failTime: real,
    lastCheckTime: real)

  /** A failed check, or a passed one; a timed reset counts as passed. */
  datatype Outcome = Outcome(target: nat, failed: bool, time: real)

  /** One target's outcomes, oldest first: whether each failed. */
  function OutcomesOf(history: seq<Outcome>, i: nat): seq<bool> {
    if history == [] then []
    else
      OutcomesOf(history[..|history| - 1], i) +
      (if history[|history| - 1].target == i then [history[|history| - 1].failed] else [])
  }

  /** The number of failures at the end. */
  function TrailingFailures(outcomes: seq<bool>): nat {
    if outcomes == [] || !outcomes[|outcomes| - 1] then 0 else TrailingFailures(outcomes[..|outcomes| - 1]) + 1
  }

  /** When the target last failed. */
  function LastFailure(history: seq<Outcome>, i: nat): real {
    if history == [] then 0.0
    else if history[|history| - 1].target == i && history[|history| - 1].failed then history[|history| - 1].time
    else LastFailure(history[..|history| - 1], i)
  }

  /** The failures that take a target down; the first failure does if maxFails is
      1 or less. */
  function Limit(p: Policy): nat {
    if p.maxFails > 1 then p.maxFails else 1
  }

  predicate IsDown(history: seq<Outcome>, i: nat, p: Policy) {
    TrailingFailures(OutcomesOf(history, i)) >= Limit(p)
  }

  /** The trailing failures number at least m exactly when the last m checks failed. */
  lemma {:induction false} TrailingAtLeast(outcomes: seq<bool>, m: nat)
    ensures TrailingFailures(outcomes) >= m <==>
      m <= |outcomes| && forall j :: |outcomes| - m <= j < |outcomes| ==> outcomes[j]
  {
    if m > 0 && outcomes != [] {
      var init := outcomes[..|outcomes| - 1];
      TrailingAtLeast(init, m - 1);
      assert forall j :: 0 <= j < |init| ==> init[j] == outcomes[j];
    }
  }

  /** A target is down exactly when its last `maxFails` checks failed, one after
      the other. */
  lemma DownMeansConsecutiveFailures(history: seq<Outcome>, i: nat, p: Policy)
    ensures var outcomes := OutcomesOf(history, i);
      IsDown(history, i, p) <==>
        Limit(p) <= |outcomes| && forall j :: |outcomes| - Limit(p) <= j < |outcomes| ==> outcomes[j]
  {
    TrailingAtLeast(OutcomesOf(history, i), Limit(p));
  }

  lemma OneMoreOutcome(history: seq<Outcome>, o: Outcome, i: nat)
    ensures var h := history + [o];
      && OutcomesOf(h, i) == OutcomesOf(history, i) + (if o.target == i then [o.failed] else [])
      && TrailingFailures(OutcomesOf(h, i)) ==
           (if o.target != i then TrailingFailures(OutcomesOf(history, i))
            else if o.failed then TrailingFailures(OutcomesOf(history, i)) + 1 else 0)
      && LastFailure(h, i) == (if o.target == i && o.failed then o.time else LastFailure(history, i))
  {
    assert (history + [o])[..|history|] == history;
    var outcomes := OutcomesOf(history, i);
    assert (outcomes + [o.failed])[..|outcomes|] == outcomes;
    assert OutcomesOf(history + [o], i) == if o.target == i then outcomes + [o.failed] else outcomes;
  }

  predicate Distinct(addresses: seq<string>) {
    forall i, j :: 0 <= i < j < |addresses| ==> addresses[i] != addresses[j]
  }

  /** A target's local state and its place in the shared set are what its
      trailing failures make them. */
  predicate Agrees(t: Target, unhealthySet: set<string>, history: seq<Outcome>, i: nat) {
    && t.failCount == TrailingFailures(OutcomesOf(history, i))
    && (t.isHealthy <==> !IsDown(history, i, t.policy))
    && (t.address in unhealthySet <==> IsDown(history, i, t.policy))
    && (t.failCount > 0 ==> t.failTime == LastFailure(history, i))
  }

  function AfterReset(t: Target): Target {
    t.(isHealthy := true, failCount := 0, failTime := 0.0)
  }

  function AfterFailure(t: Target, now: real): Target {
    t.(failCount := t.failCount + 1, failTime := now,
       isHealthy := if t.failCount + 1 >= t.policy.maxFails then false else t.isHealthy)
  }

  /** The outcome of one target leaves the others in agreement, and its own new
      state agrees. */
  lemma OutcomeKeepsAgreement(
      t: Target, t': Target, set0: set<string>, set1: set<string>, history: seq<Outcome>, o: Outcome, i: nat)
    requires Agrees(t, set0, history, i)
    requires if o.target != i then t' == t && (t.address in set1 <==> t.address in set0)
      else if o.failed then t' == AfterFailure(t, o.time) && (t.address in set1 <==> t.address in set0 || !t'.isHealthy)
      else t' == AfterReset(t) && t.address !in set1
    ensures Agrees(t', set1, history + [o], i)
  {
    OneMoreOutcome(history, o, i);
  }

  class Checker {
    /** A health-check policy governs the backend. */
    const hasPolicy: bool
    var targets: seq<Target>
    var unhealthySet: set<string>
    ghost const addresses: seq<string>
    ghost var history: seq<Outcome>

    ghost predicate Valid()
      reads this
    {
      && Distinct(addresses) && |targets| == |addresses| && (!hasPolicy ==> addresses == [])
      && (forall i :: 0 <= i < |targets| ==> targets[i].address == addresses[i])
      && (forall i :: 0 <= i < |targets| ==> Agrees(targets[i], unhealthySet, history, i))
      && (forall a :: a in unhealthySet ==> a in addresses)
    }

    /** findTargets, with the shared set empty. */
    constructor (hasPolicy: bool, addresses: seq<string>, policies: seq<Policy>, now: real)
      requires |addresses| == |policies| && Distinct(addresses) && (hasPolicy || addresses == [])
      ensures Valid() && history == [] && |targets| == |addresses| && this.hasPolicy == hasPolicy
      ensures forall i :: 0 <= i < |targets| ==> targets[i].address == addresses[i] && targets[i].policy == policies[i]
    {
      this.hasPolicy, this.addresses := hasPolicy, addresses;
      targets := seq(|addresses|,
        i requires 0 <= i < |addresses| => Target(addresses[i], policies[i], true, 0, 0.0, now));
      unhealthySet := {};
      history := [];
    }

    method Reset(i: nat, ghost now: real)
      requires Valid() && i < |targets|
      modifies this
      ensures Valid() && targets == old(targets)[i := AfterReset(old(targets[i]))]
      ensures history == old(history) + [Outcome(i, false, now)]
    {
      var t := targets[i];
      targets := targets[i := t.(isHealthy := true, failCount := 0, failTime := 0.0)];
      unhealthySet := unhealthySet - {t.address};
      ghost var o := Outcome(i, false, now);
      forall k | 0 <= k < |targets|
        ensures Agrees(targets[k], unhealthySet, history + [o], k)
      {
        OutcomeKeepsAgreement(old(targets[k]), targets[k], old(unhealthySet), unhealthySet, history, o, k);
      }
      history := history + [o];
    }

    method Fail(i: nat, now: real)
      requires Valid() && i < |targets|
      modifies this
      ensures Valid() && targets == old(targets)[i := AfterFailure(old(targets[i]), now)]
      ensures history == old(history) + [Outcome(i, true, now)]
    {
      var t := targets[i];
      t := t.(failCount := t.failCount + 1, failTime := now);
      if t.failCount >= t.policy.maxFails {
        t := t.(isHealthy := false);
        unhealthySet := unhealthySet + {t.address};
      }
      targets := targets[i := t];
      ghost var o := Outcome(i, true, now);
      forall k | 0 <= k < |targets|
        ensures Agrees(targets[k], unhealthySet, history + [o], k)
      {
        assert Agrees(old(targets[k]), old(unhealthySet), history, k);
        OutcomeKeepsAgreement(old(targets[k]), targets[k], old(unhealthySet), unhealthySet, history, o, k);
      }
      history := history + [o];
    }

    /** One round for a target: probe when the interval has passed, or, without
        probes, bring a down target back once failTimeout has passed since its
        last failure. */
    method Check(i: nat, now: real) returns (probe: bool)
      requires Valid() && i < |targets|
      modifies this
      ensures Valid()
      ensures |targets| == |old(targets)| && forall k :: 0 <= k < |targets| && k != i ==> targets[k] == old(targets[k])
      ensures var t := old(targets[i]);
        && probe == (t.policy.interval != 0.0 && now - t.lastCheckTime >= t.policy.interval)
        && targets[i].lastCheckTime == (if probe then now else t.lastCheckTime)
        && history ==
             if t.policy.interval == 0.0 && IsDown(old(history), i, t.policy) &&
               now - LastFailure(old(history), i) >= t.policy.failTimeout
             then old(history) + [Outcome(i, false, now)] else old(history)
    {
      probe := false;
      var t := targets[i];
      assert Agrees(t, unhealthySet, history, i);
      if t.policy.interval != 0.0 {
        if now - t.lastCheckTime >= t.policy.interval {
          targets := targets[i := t.(lastCheckTime := now)];
          probe := true;
        }
      } else if !t.isHealthy {
        if now - t.failTime >= t.policy.failTimeout {
          Reset(i, now);
        }
      }
    }

    /** What the balancer asks: an address is served unless a target of that
        address is down; without a policy every address is. */
    method IsHealthy(address: string) returns (healthy: bool)
      requires Valid()
      ensures healthy <==>
        !exists i :: 0 <= i < |targets| && targets[i].address == address && IsDown(history, i, targets[i].policy)
    {
      healthy := !hasPolicy || address !in unhealthySet;
      assert forall i :: 0 <= i < |targets| ==> Agrees(targets[i], unhealthySet, history, i);
      if address in addresses {
        ghost var i :| 0 <= i < |addresses| && addresses[i] == address;
        assert targets[i].address == address;
      }
    }
  }
}
