/** The backlog counter of pjs/http/throttle-route.js (and throttle-domain.js):
    a shared count of waiting requests, and each stream's own part of it. */
module Backlog {

  /** A stream that was let in: its wait counter, and how far it has come. */
  datatype Stage = Waiting | Responded | Ended

  datatype Stream = Stream(n: int, stage: Stage)

  function LiveSum(streams: seq<Stream>): int {
    if streams == [] then 0
    else LiveSum(streams[..|streams| - 1]) + LivePart(streams[|streams| - 1])
  }

  function LivePart(s: Stream): int {
    if s.stage == Ended then 0 else s.n
  }

  lemma {:induction false} LiveSumUpdate(streams: seq<Stream>, i: nat, s: Stream)
    requires i < |streams|
    ensures LiveSum(streams[i := s]) == LiveSum(streams) - LivePart(streams[i]) + LivePart(s)
  {
    var init := streams[..|streams| - 1];
    if i == |streams| - 1 {
      assert streams[i := s][..|streams| - 1] == init;
    } else {
      assert streams[i := s][..|streams| - 1] == init[i := s];
      LiveSumUpdate(init, i, s);
    }
  }

  /** One request and at most one response per stream. */
  predicate OneEach(s: Stream) {
    s.n == if s.stage == Waiting then 1 else 0
  }

  lemma {:induction false} LiveSumCounts(streams: seq<Stream>)
    requires forall i :: 0 <= i < |streams| ==> OneEach(streams[i])
    ensures 0 <= LiveSum(streams) <= |streams|
    ensures LiveSum(streams) == 0 <==> forall i :: 0 <= i < |streams| ==> streams[i].stage != Waiting
  {
    if streams != [] {
      assert OneEach(streams[|streams| - 1]);
      LiveSumCounts(streams[..|streams| - 1]);
    }
  }

  class RateLimit {
    const backlog: nat
    var count: int
    var streams: seq<Stream>

    /** The shared count is the sum over the live streams, and within bounds. */
    ghost predicate Valid()
      reads this
    {
      && count == LiveSum(streams)
      && (forall i :: 0 <= i < |streams| ==> OneEach(streams[i]))
      && 0 <= count <= backlog + 1
    }

    constructor (backlog: nat)
      requires backlog > 0
      ensures Valid() && this.backlog == backlog && streams == []
    {
      this.backlog := backlog;
      count, streams := 0, [];
    }

    /** A stream arrives with its request: refused when more than `backlog` wait,
        otherwise counted. */
    method Arrive() returns (admitted: bool)
      requires Valid()
      modifies this
      ensures Valid()
      ensures admitted == (old(count) <= backlog)
      ensures if admitted then count == old(count) + 1 && streams == old(streams) + [Stream(1, Waiting)]
        else count == old(count) && streams == old(streams)
    {
      admitted := !(count > backlog);
      if admitted {
        var localWaitCounter := 0;
        count := count + 1;
        localWaitCounter := localWaitCounter + 1;
        streams := streams + [Stream(localWaitCounter, Waiting)];
        assert streams[..|streams| - 1] == old(streams);
      }
    }

    /** The response to a stream's request begins. */
    method Respond(i: nat)
      requires Valid() && i < |streams| && streams[i].stage == Waiting
      modifies this
      ensures Valid() && count == old(count) - 1 && streams == old(streams)[i := Stream(0, Responded)]
    {
      LiveSumUpdate(streams, i, Stream(streams[i].n - 1, Responded));
      count := count - 1;
      streams := streams[i := Stream(streams[i].n - 1, Responded)];
      LiveSumCounts(streams);
    }

    /** The stream ends, answered or not. */
    method End(i: nat)
      requires Valid() && i < |streams| && streams[i].stage != Ended
      modifies this
      ensures Valid() && streams == old(streams)[i := Stream(0, Ended)]
      ensures count == old(count) - if old(streams)[i].stage == Waiting then 1 else 0
    {
      LiveSumUpdate(streams, i, Stream(0, Ended));
      count := count - streams[i].n;
      streams := streams[i := Stream(0, Ended)];
      LiveSumCounts(streams);
    }

    /** Nobody waits exactly when the shared count is back at zero. */
    lemma IdleExactly()
      requires Valid()
      ensures count == 0 <==> forall i :: 0 <= i < |streams| ==> streams[i].stage != Waiting
    {
      LiveSumCounts(streams);
    }
  }
}
