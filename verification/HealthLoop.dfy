/** The health checks both forwarding workers make, and their agreement with the lifecycle reducer. */
module HealthLoop {
  import opened Wrappers
  import opened LifecycleTypes
  import opened Reducer

  /** Consecutive failures after one more ping; None when the worker gives up. */
  function NextFailures(failures: nat, ok: bool): Option<nat> {
    if ok then Some(0)
    else if Min(failures + 1, U8_MAX) >= PING_FAILURE_LIMIT then None
    else Some(Min(failures + 1, U8_MAX))
  }

  /** A worker's failure count after these pings, oldest first. */
  function AfterPings(pings: seq<bool>): Option<nat> {
    if |pings| == 0 then Some(0)
    else
      var before := AfterPings(pings[..|pings| - 1]);
      if before.None? then None else NextFailures(before.value, pings[|pings| - 1])
  }

  ghost predicate ThreeInARow(pings: seq<bool>) {
    exists k :: 0 <= k < |pings| - 2 && !pings[k] && !pings[k + 1] && !pings[k + 2]
  }

  ghost predicate EndsWithThree(pings: seq<bool>) {
    |pings| >= 3 && !pings[|pings| - 3] && !pings[|pings| - 2] && !pings[|pings| - 1]
  }

  lemma ThreeGrows(pings: seq<bool>)
    requires |pings| > 0
    ensures ThreeInARow(pings) <==> ThreeInARow(pings[..|pings| - 1]) || EndsWithThree(pings)
  {
    var before := pings[..|pings| - 1];
    assert forall k | 0 <= k < |before| :: before[k] == pings[k];
    if ThreeInARow(before) {
      var k :| 0 <= k < |before| - 2 && !before[k] && !before[k + 1] && !before[k + 2];
      assert !pings[k] && !pings[k + 1] && !pings[k + 2];
    }
  }

  /** The worker survives exactly while no three consecutive pings fail, and counts the current streak. */
  lemma {:induction false} WorkerCountsTheStreak(pings: seq<bool>)
    ensures AfterPings(pings).None? <==> ThreeInARow(pings)
    ensures AfterPings(pings).Some? ==>
      var f := AfterPings(pings).value;
      && f < PING_FAILURE_LIMIT && f <= |pings|
      && (forall k | |pings| - f <= k < |pings| :: !pings[k])
      && (f < |pings| ==> pings[|pings| - f - 1])
  {
    if |pings| > 0 {
      WorkerCountsTheStreak(pings[..|pings| - 1]);
      ThreeGrows(pings);
    }
  }

  /** The reducer after the same pings, reported with any times. */
  function ReducerAfterPings(m: Machine, pings: seq<bool>): Machine {
    if |pings| == 0 then m
    else
      var before := ReducerAfterPings(m, pings[..|pings| - 1]);
      var g := before.state.generation;
      React(before, if pings[|pings| - 1] then PingSucceeded(g, |pings|, 0) else PingFailed(g, |pings|, 1, 0)).0
  }

  /** A machine whose forward is up and whose health has been checked at least once. */
  ghost predicate Shows(m: Machine, failures: nat) {
    && AcceptsWork(m) && SessionUsable(m)
    && m.state.health.consecutivePingFailures == failures
    && (failures == 0 ==> m.state.runtime.Healthy?)
    && (failures > 0 ==> m.state.runtime.Degraded?)
  }

  lemma PingStep(m: Machine, failures: nat, ok: bool, at: nat)
    requires Shows(m, failures) && failures < PING_FAILURE_LIMIT
    ensures var g := m.state.generation;
            var m' := React(m, if ok then PingSucceeded(g, at, 0) else PingFailed(g, at, 1, 0)).0;
            match NextFailures(failures, ok)
            case Some(n) => Shows(m', n)
            case None => m'.state.runtime.Reconnecting? && !SessionUsable(m')
  {
  }

  /** Both workers' loops simulate the reducer: equal counters at every step, and they give up together. */
  lemma {:induction false} WorkerSimulatesReducer(m: Machine, pings: seq<bool>)
    requires Shows(m, 0)
    requires |pings| > 0 ==> AfterPings(pings[..|pings| - 1]).Some?
    ensures var m' := ReducerAfterPings(m, pings);
            match AfterPings(pings)
            case Some(failures) => Shows(m', failures)
            case None => m'.state.runtime.Reconnecting? && !SessionUsable(m')
  {
    if |pings| > 0 {
      var before := pings[..|pings| - 1];
      WorkerSimulatesReducer(m, before);
      WorkerCountsTheStreak(before);
      PingStep(ReducerAfterPings(m, before), AfterPings(before).value, pings[|pings| - 1], |pings|);
    }
  }
}
