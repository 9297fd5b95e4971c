/**
  What every run of the lifecycle reducer keeps.  A run is a `Chain`: the Applied transitions, in
  order, from a fresh machine; refused, stale and ignored events leave the machine as it was, so
  they do not appear in it.
*/
module LifecycleTheorems {
  import opened Wrappers
  import opened LifecycleTypes
  import opened Reducer

  // ----- the joint invariant -----

  predicate IsActive(r: RuntimeState) {
    !r.Stopped? && !r.Stopping?
  }

  /** The state relations that hold together in every reachable value. */
  predicate Consistent(m: Machine) {
    var s := m.state;
    var h := s.health;
    && (IsActive(s.runtime) ==> s.desired == WantRunning)
    && (s.runtime.Stopped? ==> s.desired == WantStopped && s.listener == IdleListener(m.listenerRequired))
    && (s.runtime.Stopped? || s.runtime.Stopping? ==> h == DEFAULT_HEALTH)
    && (s.runtime.Stopping? ==> (m.restartAfterShutdown <==> s.desired == WantRunning))
    && (!s.runtime.Stopping? ==> !m.restartAfterShutdown)
    && (s.runtime.Connecting? || s.runtime.Authenticating? ==>
          h == DEFAULT_HEALTH && 1 <= s.runtime.hop <= s.runtime.totalHops)
    && (s.runtime.EstablishingForward? ==> h == DEFAULT_HEALTH.(authenticated := true))
    && (s.runtime.Starting? ==>
          h == DEFAULT_HEALTH || h == DEFAULT_HEALTH.(authenticated := true, forwardReady := true))
    && (s.runtime.Healthy? || s.runtime.Degraded? ==> SessionUsable(m))
    && (s.runtime.Reconnecting? ==> !h.authenticated && !h.forwardReady)
    && (s.runtime.Healthy? ==> h.consecutivePingFailures == 0)
    && (s.runtime.Degraded? ==> 1 <= h.consecutivePingFailures < PING_FAILURE_LIMIT)
    && h.consecutivePingFailures <= PING_FAILURE_LIMIT
    && (s.listener.Conflict? ==> s.runtime.Blocked? || s.runtime.Stopping?)
    && (m.listenerRequired <==> !s.listener.NotRequired?)
    && !s.runtime.Failed?
    && s.generation <= U64_MAX
  }

  lemma StepKeepsConsistent(t: Taken)
    requires Follows(t) && Consistent(t.before)
    ensures Consistent(t.after)
    ensures t.after.listenerRequired == t.before.listenerRequired
  {
    if Tag(t.event).None? || t.event.ShutdownComplete? {
      CommandKeepsConsistent(t);
    } else if t.event.PingSucceeded? || t.event.PingFailed? || t.event.Disconnected? {
      HealthReportKeepsConsistent(t);
    } else if t.event.StartPhaseReached? || t.event.ListenerBound? || t.event.ListenerConflict? {
      ListenerReportKeepsConsistent(t);
    } else {
      HopReportKeepsConsistent(t);
    }
  }

  lemma CommandKeepsConsistent(t: Taken)
    requires Follows(t) && Consistent(t.before) && (Tag(t.event).None? || t.event.ShutdownComplete?)
    ensures Consistent(t.after) && t.after.listenerRequired == t.before.listenerRequired
  {
  }

  lemma HealthReportKeepsConsistent(t: Taken)
    requires Follows(t) && Consistent(t.before)
    requires t.event.PingSucceeded? || t.event.PingFailed? || t.event.Disconnected?
    ensures Consistent(t.after) && t.after.listenerRequired == t.before.listenerRequired
  {
  }

  lemma ListenerReportKeepsConsistent(t: Taken)
    requires Follows(t) && Consistent(t.before)
    requires t.event.StartPhaseReached? || t.event.ListenerBound? || t.event.ListenerConflict?
    ensures Consistent(t.after) && t.after.listenerRequired == t.before.listenerRequired
  {
  }

  lemma HopReportKeepsConsistent(t: Taken)
    requires Follows(t) && Consistent(t.before)
    requires t.event.HopConnecting? || t.event.HopAuthenticating? || t.event.HopAuthenticated?
             || t.event.Authenticated? || t.event.ForwardReady?
    ensures Consistent(t.after) && t.after.listenerRequired == t.before.listenerRequired
  {
  }

  lemma ChainInit(m: Machine, log: seq<Taken>)
    requires Chain(m, log) && |log| > 0
    ensures Chain(m, log[..|log| - 1])
    ensures Follows(log[|log| - 1]) && log[|log| - 1].before == Final(m, log[..|log| - 1])
  {
  }

  /** Every value a run reaches is consistent. */
  lemma {:induction false} ReachableIsConsistent(required: bool, log: seq<Taken>)
    requires Chain(New(required), log)
    ensures Consistent(Final(New(required), log))
  {
    if |log| > 0 {
      ChainInit(New(required), log);
      ReachableIsConsistent(required, log[..|log| - 1]);
      StepKeepsConsistent(log[|log| - 1]);
    }
  }

  // ----- effects -----

  function Effects(log: seq<Taken>): seq<TransitionEffect> {
    if |log| == 0 then []
    else
      var rest := Effects(log[..|log| - 1]);
      var effect := log[|log| - 1].effect;
      if effect.Some? then rest + [effect.value] else rest
  }

  /** Begin(g1), Cancel(g1), Begin(g2), Cancel(g2), ... with g1 < g2 < ... */
  ghost predicate Alternates(es: seq<TransitionEffect>) {
    && (forall i | 0 <= i < |es| && i % 2 == 0 :: es[i].BeginGeneration?)
    && (forall i | 0 <= i < |es| && i % 2 == 1 :: es[i] == CancelAndJoin(es[i - 1].generation))
    && (forall i, j | 0 <= i < j < |es| && j % 2 == 0 :: es[i].generation < es[j].generation)
  }

  predicate OwesEffect(m: Machine, es: seq<TransitionEffect>) {
    && (|es| % 2 == 1 <==> IsActive(m.state.runtime))
    && (|es| % 2 == 1 ==> es[|es| - 1] == BeginGeneration(m.state.generation))
    && (forall i | 0 <= i < |es| :: es[i].generation <= m.state.generation)
    && (m.state.runtime.Stopping? ==> forall i | 0 <= i < |es| :: es[i].generation < m.state.generation)
  }

  /** The effects of every run strictly alternate, with increasing generations. */
  lemma {:induction false} EffectsAlternate(required: bool, log: seq<Taken>)
    requires Chain(New(required), log)
    ensures Alternates(Effects(log))
    ensures OwesEffect(Final(New(required), log), Effects(log))
  {
    if |log| > 0 {
      var init := log[..|log| - 1];
      ChainInit(New(required), log);
      EffectsAlternate(required, init);
      ReachableIsConsistent(required, init);
      EffectHasShape(log[|log| - 1]);
      EffectStep(log[|log| - 1], Effects(init));
    }
  }

  /** How an effect shows in the values around it. */
  ghost predicate EffectShape(t: Taken) {
    var b, a := t.before.state, t.after.state;
    && b.generation <= a.generation
    && (Begins(t) ==> !IsActive(b.runtime) && IsActive(a.runtime) && t.effect.value.generation == a.generation
                      && (b.runtime.Stopped? ==> b.generation < a.generation))
    && (Cancels(t) ==> IsActive(b.runtime) && a.runtime.Stopping?
                       && t.effect.value.generation == b.generation < a.generation)
    && (t.effect.None? ==> (IsActive(b.runtime) <==> IsActive(a.runtime)) && !a.runtime.Stopping?
                           && (IsActive(b.runtime) ==> a.generation == b.generation))
  }

  lemma EffectHasShape(t: Taken)
    requires Follows(t) && Consistent(t.before)
    ensures EffectShape(t)
  {
  }

  lemma EffectStep(t: Taken, es: seq<TransitionEffect>)
    requires EffectShape(t) && Alternates(es) && OwesEffect(t.before, es)
    ensures var es' := if t.effect.Some? then es + [t.effect.value] else es;
            Alternates(es') && OwesEffect(t.after, es')
  {
    if t.effect.Some? {
      var es' := es + [t.effect.value];
      assert es'[|es|] == t.effect.value && forall i | 0 <= i < |es| :: es'[i] == es[i];
    }
  }

  // ----- order inside a run -----

  lemma StepGeneration(t: Taken)
    requires Follows(t)
    ensures t.before.state.generation <= t.after.state.generation
    ensures Tag(t.event).Some? ==> Tag(t.event).value == t.before.state.generation
    ensures Cancels(t) ==> t.effect.value.generation < t.after.state.generation
  {
  }

  ghost predicate Paced(log: seq<Taken>) {
    && (forall i | 0 <= i < |log| :: log[i].before.state.generation <= log[i].after.state.generation)
    && (forall i | 0 < i < |log| :: log[i].before == log[i - 1].after)
  }

  lemma ChainIsPaced(m: Machine, log: seq<Taken>)
    requires Chain(m, log)
    ensures Paced(log)
  {
    forall i | 0 <= i < |log|
      ensures log[i].before.state.generation <= log[i].after.state.generation
    {
      StepGeneration(log[i]);
    }
  }

  lemma {:induction false} GenerationsNeverDecrease(log: seq<Taken>, i: nat, j: nat)
    requires Paced(log) && i < j < |log|
    ensures log[i].after.state.generation <= log[j].before.state.generation
    decreases j
  {
    if i + 1 < j {
      GenerationsNeverDecrease(log, i, j - 1);
    }
  }

  /** Once generation g is cancelled, no result tagged g or older is ever applied again. */
  lemma CancelledGenerationIsSilent(m: Machine, log: seq<Taken>, i: nat, j: nat)
    requires Chain(m, log) && i < j < |log| && Cancels(log[i]) && Tag(log[j].event).Some?
    ensures Tag(log[j].event).value > log[i].effect.value.generation
  {
    ChainIsPaced(m, log);
    GenerationsNeverDecrease(log, i, j);
    StepGeneration(log[i]);
    StepGeneration(log[j]);
  }

  predicate Cancels(t: Taken) { t.effect.Some? && t.effect.value.CancelAndJoin? }

  predicate Begins(t: Taken) { t.effect.Some? && t.effect.value.BeginGeneration? }

  /** Nothing at all is applied between cancelling a generation and the acknowledgement of its shutdown. */
  lemma ShutdownFollowsCancel(m: Machine, log: seq<Taken>, i: nat)
    requires Chain(m, log) && i + 1 < |log| && Cancels(log[i])
    ensures log[i + 1].event == ShutdownComplete(log[i].after.state.generation)
  {
    assert Follows(log[i]) && Follows(log[i + 1]);
  }

  // ----- what a shutdown leads to -----

  /** A fresh attempt, with nothing of the last one left. */
  predicate Fresh(m: Machine) {
    && m.state.desired == WantRunning && m.state.runtime == Starting(Validating)
    && m.state.listener == (if m.listenerRequired then Unbound else NotRequired)
    && m.state.health == HealthState(false, false, None, 0) && !m.restartAfterShutdown
  }

  /** Down, with nothing of the last attempt left. */
  predicate Down(m: Machine) {
    && m.state.desired == WantStopped && m.state.runtime == Stopped
    && m.state.listener == (if m.listenerRequired then Unbound else NotRequired)
    && m.state.health == HealthState(false, false, None, 0) && !m.restartAfterShutdown
  }

  /** Why a generation was cancelled decides what follows: after Stop the tunnel is down, otherwise it comes back. */
  lemma ShutdownEndsAsAsked(required: bool, log: seq<Taken>, i: nat)
    requires Chain(New(required), log) && i + 1 < |log| && Cancels(log[i])
    ensures log[i].event.Stop? || log[i].event.Restart? || log[i].event.ConfigChanged?
    ensures if log[i].event.Stop? then log[i + 1].effect.None? && Down(log[i + 1].after)
            else log[i + 1].effect == Some(BeginGeneration(log[i].after.state.generation)) && Fresh(log[i + 1].after)
    ensures log[i + 1].after.state.generation == log[i].after.state.generation == log[i].before.state.generation + 1
  {
    assert Chain(New(required), log[..i]) && Final(New(required), log[..i]) == log[i].before;
    ReachableIsConsistent(required, log[..i]);
    CancelRemembers(log[i]);
    ShutdownFollowsCancel(New(required), log, i);
    ShutdownStep(log[i + 1]);
  }

  lemma CancelRemembers(t: Taken)
    requires Follows(t) && Consistent(t.before) && Cancels(t)
    ensures t.event.Stop? || t.event.Restart? || t.event.ConfigChanged?
    ensures t.after.restartAfterShutdown <==> !t.event.Stop?
    ensures t.after.state.desired == if t.event.Stop? then WantStopped else WantRunning
    ensures t.after.state.generation == t.before.state.generation + 1
  {
  }

  lemma ShutdownStep(t: Taken)
    requires Follows(t) && t.event.ShutdownComplete?
    requires t.before.restartAfterShutdown <==> t.before.state.desired == WantRunning
    ensures t.after.state.generation == t.before.state.generation
    ensures if t.before.restartAfterShutdown
            then t.effect == Some(BeginGeneration(t.before.state.generation)) && Fresh(t.after)
            else t.effect.None? && Down(t.after)
  {
  }

  /** A command that is acted on, and the acknowledgement of the shutdown it may cause. */
  function Settle(m: Machine, command: Event): Machine {
    var m' := React(m, command).0;
    if m'.state.runtime.Stopping? then React(m', ShutdownComplete(m'.state.generation)).0 else m'
  }

  /** While generations last, and unless it is shutting down, Stop brings any tunnel down and Restart up afresh. */
  lemma CommandsAlwaysWork(required: bool, log: seq<Taken>)
    requires Chain(New(required), log)
    requires var m := Final(New(required), log); m.state.generation < U64_MAX && !m.state.runtime.Stopping?
    ensures var m := Final(New(required), log); Down(Settle(m, Stop)) && Fresh(Settle(m, Restart))
  {
    ReachableIsConsistent(required, log);
  }

  /** Any change of the configuration moves a stopped tunnel's generation on, and restarts any other. */
  lemma ConfigChangeRestarts(required: bool, log: seq<Taken>)
    requires Chain(New(required), log)
    requires var m := Final(New(required), log); m.state.generation < U64_MAX && !m.state.runtime.Stopping?
    ensures var m := Final(New(required), log);
            var m' := Settle(m, ConfigChanged);
            && m'.state.generation == m.state.generation + 1
            && if m.state.runtime.Stopped? then Down(m') else Fresh(m')
  {
    ReachableIsConsistent(required, log);
  }

  // ----- when Stop is final -----

  predicate UserBegin(e: Event) { e.Start? || e.Restart? }

  /** Down for good: nothing but a user's Start or Restart can begin a generation from here. */
  predicate Settled(m: Machine) {
    m.state.runtime.Stopped? || (m.state.runtime.Stopping? && !m.restartAfterShutdown)
  }

  lemma {:induction false} SettledStays(m: Machine, log: seq<Taken>, j: nat)
    requires Settled(m) && Chain(m, log) && j < |log|
    requires forall k | 0 <= k <= j :: !UserBegin(log[k].event)
    ensures Settled(log[j].after) && !Begins(log[j])
    decreases j
  {
    if j > 0 {
      SettledStays(m, log, j - 1);
    }
    SettledStep(log[j]);
  }

  lemma SettledStep(t: Taken)
    requires Follows(t) && Settled(t.before) && !UserBegin(t.event)
    ensures Settled(t.after) && !Begins(t)
  {
  }

  /** After an Applied Stop nothing begins before an Applied Start or Restart. */
  lemma AppliedStopIsFinal(m: Machine, log: seq<Taken>, i: nat, j: nat)
    requires Chain(m, log) && i < j < |log| && log[i].event.Stop? && Begins(log[j])
    ensures exists k :: i < k <= j && UserBegin(log[k].event)
  {
    if forall k | i < k <= j :: !UserBegin(log[k].event) {
      var rest := log[i + 1..];
      assert Follows(log[i]) && Settled(log[i].after);
      assert Chain(log[i].after, rest);
      SettledStays(log[i].after, rest, j - i - 1);
      assert false;
    }
  }

  /** No continuation of `m` begins a generation unless the user asks for it. */
  ghost predicate NeverBeginsUnasked(m: Machine) {
    forall log: seq<Taken>, j: nat ::
      Chain(m, log) && j < |log| && (forall k | 0 <= k <= j :: !UserBegin(log[k].event)) ==> !Begins(log[j])
  }

  /**
    Issuing Stop is final exactly when the visible state is not that of a tunnel shutting down to come back,
    Stopping with Running desired: there Stop is answered NoChange and the tunnel returns.
    (At the last generation Stop is refused and the tunnel runs on, yet nothing can begin either.)
  */
  lemma StopIsFinalExactlyWhen(m: Machine)
    requires Consistent(m)
    ensures NeverBeginsUnasked(React(m, Stop).0) <==> !(m.state.runtime.Stopping? && m.state.desired == WantRunning)
  {
    var after := React(m, Stop).0;
    if m.restartAfterShutdown {
      assert after == m && m.state.runtime.Stopping?;
      var done := ShutdownComplete(m.state.generation);
      var t := Taken(m, done, Target(m, done), EffectOf(m, done), 0);
      assert Chain(m, [t]) && Begins([t][0]);
      assert !NeverBeginsUnasked(after);
    } else {
      forall log: seq<Taken>, j: nat
        | Chain(after, log) && j < |log| && (forall k | 0 <= k <= j :: !UserBegin(log[k].event))
        ensures !Begins(log[j])
      {
        if Settled(after) {
          SettledStays(after, log, j);
        } else {
          ExhaustedNeverBegins(after, log, j);
        }
      }
    }
  }

  /** An active machine at the last generation can neither stop nor begin again. */
  lemma {:induction false} ExhaustedNeverBegins(m: Machine, log: seq<Taken>, j: nat)
    requires IsActive(m.state.runtime) && m.state.generation == U64_MAX && Chain(m, log) && j < |log|
    ensures IsActive(log[j].after.state.runtime) && log[j].after.state.generation == U64_MAX && !Begins(log[j])
    decreases j
  {
    if j > 0 {
      ExhaustedNeverBegins(m, log, j - 1);
    }
    ExhaustedStep(log[j]);
  }

  lemma ExhaustedStep(t: Taken)
    requires Follows(t) && IsActive(t.before.state.runtime) && t.before.state.generation == U64_MAX
    ensures IsActive(t.after.state.runtime) && t.after.state.generation == U64_MAX && !Begins(t)
  {
  }

  /** A concrete run in which the user's last word is Stop and the tunnel starts again. */
  lemma StopDuringRestartIsLost(required: bool)
    ensures
      var m1 := React(New(required), Start).0;
      var m2 := React(m1, Restart).0;
      var (m3, answer) := React(m2, Stop);
      var (m4, reply) := React(m3, ShutdownComplete(2));
      answer == Ok(NoChange) && reply == Ok(Applied(Some(BeginGeneration(2)))) && m4.state.desired == WantRunning
  {
  }

  // ----- what the state shows -----

  /** Reconnecting and Blocked are shown with the very failure that was reported last, which decides between them. */
  lemma FailureIsExplained(required: bool, log: seq<Taken>)
    requires Chain(New(required), log)
    requires var r := Final(New(required), log).state.runtime; r.Reconnecting? || r.Blocked?
    ensures |log| > 0
    ensures var m, e := Final(New(required), log), log[|log| - 1].event;
            match m.state.runtime
            case Reconnecting(attempt, at, reason) =>
              && reason.retryability == Transient
              && ((e.Disconnected? && e.error == reason) || (e.PingFailed? && reason.kind == Timeout))
              && e.attempt == attempt && e.nextRetryAt == at
            case Blocked(reason) =>
              && reason.retryability == Permanent
              && ((e.Disconnected? && e.error == reason)
                  || (e.ListenerConflict? && reason.kind == PortConflict && reason.stage == BindLocalPort
                      && m.state.listener == Conflict(e.address, None)))
            case _ => true
  {
    var t := log[|log| - 1];
    ChainInit(New(required), log);
    ReachableIsConsistent(required, log[..|log| - 1]);
    FailureStep(t);
  }

  lemma FailureStep(t: Taken)
    requires Follows(t) && Consistent(t.before)
    ensures t.after.state.runtime.Reconnecting? ==>
      var (r, e) := (t.after.state.runtime, t.event);
      && r.reason.retryability == Transient
      && ((e.Disconnected? && e.error == r.reason) || (e.PingFailed? && r.reason.kind == Timeout))
      && e.attempt == r.attempt && e.nextRetryAt == r.nextRetryAt
    ensures t.after.state.runtime.Blocked? ==>
      var (r, e) := (t.after.state.runtime, t.event);
      && r.reason.retryability == Permanent
      && ((e.Disconnected? && e.error == r.reason)
          || (e.ListenerConflict? && r.reason.kind == PortConflict && r.reason.stage == BindLocalPort
              && t.after.state.listener == Conflict(e.address, None)))
  {
  }

  /** A tunnel is Healthy since the first of the pings that have all succeeded, and shows the time of the last. */
  lemma {:induction false} HealthySinceFirstPing(required: bool, log: seq<Taken>) returns (k: nat)
    requires Chain(New(required), log) && Final(New(required), log).state.runtime.Healthy?
    ensures k < |log| && !log[k].before.state.runtime.Healthy?
    ensures forall j | k <= j < |log| :: log[j].event.PingSucceeded?
    ensures var s := Final(New(required), log).state;
            s.runtime.since == log[k].event.at && s.health.lastRttMs == Some(Min(log[|log| - 1].event.rttMs, U32_MAX))
  {
    var last := |log| - 1;
    ChainInit(New(required), log);
    HealthyStep(log[last]);
    k := last;
    if log[last].before.state.runtime.Healthy? {
      k := HealthySinceFirstPing(required, log[..last]);
    }
  }

  lemma HealthyStep(t: Taken)
    requires Follows(t) && t.after.state.runtime.Healthy?
    ensures t.event.PingSucceeded? && t.after.state.health.lastRttMs == Some(Min(t.event.rttMs, U32_MAX))
    ensures t.after.state.runtime.since ==
            if t.before.state.runtime.Healthy? then t.before.state.runtime.since else t.event.at
  {
  }

  /** A tunnel is Degraded since the first of its failed pings in a row, which are as many as it counts. */
  lemma {:induction false} DegradedSinceFirstFailure(required: bool, log: seq<Taken>)
    requires Chain(New(required), log) && Final(New(required), log).state.runtime.Degraded?
    ensures var s, n := Final(New(required), log).state, |log|;
            var f := s.health.consecutivePingFailures;
            && 1 <= f <= n && f < 3
            && (forall j | n - f <= j < n :: log[j].event.PingFailed?)
            && !log[n - f].before.state.runtime.Degraded? && s.runtime.since == log[n - f].event.at
  {
    var last := |log| - 1;
    ChainInit(New(required), log);
    ReachableIsConsistent(required, log[..last]);
    DegradedStep(log[last]);
    if log[last].before.state.runtime.Degraded? {
      DegradedSinceFirstFailure(required, log[..last]);
    }
  }

  lemma DegradedStep(t: Taken)
    requires Follows(t) && Consistent(t.before) && t.after.state.runtime.Degraded?
    ensures t.event.PingFailed?
    ensures var b, a := t.before.state, t.after.state;
            && a.runtime.since == (if b.runtime.Degraded? then b.runtime.since else t.event.at)
            && a.health.consecutivePingFailures
               == (if b.runtime.Degraded? then b.health.consecutivePingFailures + 1 else 1) < 3
  {
  }

  /** Once bound, the port stays bound to the same address until a shutdown completes. */
  lemma {:induction false} ListenerStaysBound(required: bool, log: seq<Taken>, k: nat, n: nat)
    requires Chain(New(required), log) && k < n <= |log| && log[k].event.ListenerBound?
    requires forall j | k < j < n :: !log[j].event.ShutdownComplete?
    ensures log[n - 1].after.state.listener == Bound(log[k].event.address)
    decreases n
  {
    assert Follows(log[n - 1]);
    if k + 1 < n {
      ListenerStaysBound(required, log, k, n - 1);
      assert Chain(New(required), log[..n - 1]) && Final(New(required), log[..n - 1]) == log[n - 1].before;
      ReachableIsConsistent(required, log[..n - 1]);
      BoundStep(log[n - 1]);
    }
  }

  lemma BoundStep(t: Taken)
    requires Follows(t) && Consistent(t.before) && t.before.state.listener.Bound? && !t.event.ShutdownComplete?
    ensures t.after.state.listener == t.before.state.listener
  {
  }

  /** Whatever the port is bound to was reported so in this attempt. */
  lemma {:induction false} BoundWasReported(required: bool, log: seq<Taken>) returns (k: nat)
    requires Chain(New(required), log) && Final(New(required), log).state.listener.Bound?
    ensures BoundSince(log, k) && Final(New(required), log).state.listener == Bound(log[k].event.address)
  {
    var last := |log| - 1;
    var init := log[..last];
    ChainInit(New(required), log);
    ReachableIsConsistent(required, init);
    ReportStep(log[last]);
    k := last;
    if !log[last].event.ListenerBound? {
      k := BoundWasReported(required, init);
      BoundSinceGrows(log, k);
    }
  }

  /** The port was reported bound at log[k], and no shutdown or new attempt has followed. */
  ghost predicate BoundSince(log: seq<Taken>, k: nat) {
    && k < |log| && log[k].event.ListenerBound?
    && log[k].before.listenerRequired && log[k].before.state.runtime == Starting(AcquiringListener)
    && forall j | k < j < |log| :: !log[j].event.ShutdownComplete? && !Begins(log[j])
  }

  lemma BoundSinceGrows(log: seq<Taken>, k: nat)
    requires |log| > 0 && BoundSince(log[..|log| - 1], k)
    requires !log[|log| - 1].event.ShutdownComplete? && !Begins(log[|log| - 1])
    ensures BoundSince(log, k) && log[k] == log[..|log| - 1][k]
  {
    var init := log[..|log| - 1];
    assert forall j | 0 <= j < |init| :: init[j] == log[j];
  }

  lemma ReportStep(t: Taken)
    requires Follows(t) && Consistent(t.before) && t.after.state.listener.Bound?
    ensures if t.event.ListenerBound?
            then t.after.state.listener == Bound(t.event.address) && t.before.listenerRequired
                 && t.before.state.runtime == Starting(AcquiringListener)
            else t.after.state.listener == t.before.state.listener && !t.event.ShutdownComplete? && !Begins(t)
  {
  }

  /** Connecting begins when the jump chain has just been announced, or to reconnect after a failure. */
  lemma ConnectingIsAnnounced(required: bool, log: seq<Taken>, i: nat)
    requires Chain(New(required), log) && i < |log| && log[i].event.HopConnecting?
    ensures i > 0 && 1 <= log[i].event.hop <= log[i].event.totalHops
    ensures || (log[i - 1].event.StartPhaseReached? && log[i - 1].event.phase == BuildingJumpChain)
            || (log[i - 1].event.Disconnected? && log[i - 1].event.error.retryability == Transient)
            || log[i - 1].event.PingFailed?
  {
    assert Follows(log[i]);
    if i > 0 {
      assert Chain(New(required), log[..i]) && Final(New(required), log[..i]) == log[i].before;
      ReachableIsConsistent(required, log[..i - 1]);
      AnnounceStep(log[i - 1]);
    }
  }

  lemma AnnounceStep(t: Taken)
    requires Follows(t)
    requires t.after.state.runtime.Reconnecting? || t.after.state.runtime == Starting(BuildingJumpChain)
    ensures || (t.event.StartPhaseReached? && t.event.phase == BuildingJumpChain)
            || (t.event.Disconnected? && t.event.error.retryability == Transient)
            || t.event.PingFailed?
  {
  }

  // ----- the way up -----

  /** `log` takes a fresh machine to `m`. */
  ghost predicate LeadsTo(required: bool, log: seq<Taken>, m: Machine) {
    Chain(New(required), log) && Final(New(required), log) == m
  }

  lemma Advance(required: bool, log: seq<Taken>, m: Machine, e: Event) returns (log': seq<Taken>, m': Machine)
    requires LeadsTo(required, log, m) && Judge(m, e).Take?
    ensures m' == Target(m, e) && LeadsTo(required, log', m') && |log'| == |log| + 1
  {
    m' := Target(m, e);
    log' := log + [Taken(m, e, m', EffectOf(m, e), 0)];
  }

  /** In the first generation, with the listener as it should be. */
  predicate Climbing(m: Machine, runtime: RuntimeState, required: bool, address: SocketAddr) {
    && m.state.desired == WantRunning && m.state.generation == 1 && m.state.runtime == runtime
    && m.state.listener == (if required then Bound(address) else NotRequired)
  }

  lemma ReachTheChain(required: bool, address: SocketAddr) returns (log: seq<Taken>, m: Machine)
    ensures LeadsTo(required, log, m) && |log| == (if required then 4 else 2)
    ensures Climbing(m, Starting(BuildingJumpChain), required, address)
  {
    log, m := Advance(required, [], New(required), Start);
    if required {
      log, m := Advance(required, log, m, StartPhaseReached(1, AcquiringListener));
      log, m := Advance(required, log, m, ListenerBound(1, address));
    }
    log, m := Advance(required, log, m, StartPhaseReached(1, BuildingJumpChain));
  }

  /** One more hop. */
  lemma NextHop(required: bool, log: seq<Taken>, m: Machine, address: SocketAddr, n: nat)
    returns (log': seq<Taken>, m': Machine)
    requires LeadsTo(required, log, m) && m.state.runtime.Connecting? && 1 <= m.state.runtime.hop <= n
    requires Climbing(m, Connecting(m.state.runtime.hop, n, m.state.runtime.attempt), required, address)
    ensures LeadsTo(required, log', m') && |log'| == |log| + 2
    ensures m.state.runtime.hop < n ==> Climbing(m', Connecting(m.state.runtime.hop + 1, n, 0), required, address)
    ensures m.state.runtime.hop == n ==>
      Climbing(m', EstablishingForward, required, address) && m'.state.health.authenticated
  {
    var hop := m.state.runtime.hop;
    log', m' := Advance(required, log, m, HopAuthenticating(1, hop, n));
    log', m' := Advance(required, log', m', if hop < n then HopAuthenticated(1) else Authenticated(1));
  }

  /** Hop by hop, from having authenticated none to connecting to hop `h` of `n`. */
  lemma {:induction false} Climb(required: bool, address: SocketAddr, n: nat, h: nat)
    returns (log: seq<Taken>, m: Machine)
    requires 1 <= h <= n
    ensures LeadsTo(required, log, m) && |log| == 2 * h + (if required then 3 else 1)
    ensures Climbing(m, Connecting(h, n, if h == 1 then 1 else 0), required, address)
    decreases h
  {
    if h == 1 {
      log, m := ReachTheChain(required, address);
      log, m := Advance(required, log, m, HopConnecting(1, 1, n, 1));
    } else {
      log, m := Climb(required, address, n, h - 1);
      log, m := NextHop(required, log, m, address, n);
    }
  }

  lemma FirstPing(required: bool, log: seq<Taken>, m: Machine, address: SocketAddr)
    returns (log': seq<Taken>, m': Machine)
    requires LeadsTo(required, log, m) && Climbing(m, EstablishingForward, required, address)
    requires m.state.health.authenticated
    ensures LeadsTo(required, log', m') && |log'| == |log| + 2 && Climbing(m', Healthy(0), required, address)
  {
    log', m' := Advance(required, log, m, ForwardReady(1));
    log', m' := Advance(required, log', m', PingSucceeded(1, 0, 0));
  }

  /** A tunnel with any number of hops can become Healthy, in just the steps it takes. */
  lemma HealthyCanBeReached(required: bool, address: SocketAddr, n: nat) returns (log: seq<Taken>, m: Machine)
    requires n > 0
    ensures LeadsTo(required, log, m) && |log| == 2 * n + (if required then 7 else 5)
    ensures Climbing(m, Healthy(0), required, address)
  {
    log, m := Climb(required, address, n, n);
    log, m := NextHop(required, log, m, address, n);
    log, m := FirstPing(required, log, m, address);
  }

  // ----- where Healthy comes from -----

  datatype Milestone = HopDone | ChainDone | ForwardUp

  predicate Reaches(e: Event, p: Milestone) {
    match p
    case HopDone => e.HopAuthenticated?
    case ChainDone => e.Authenticated?
    case ForwardUp => e.ForwardReady?
  }

  /** How many of log[lo..hi] reach the milestone `p`. */
  function Count(log: seq<Taken>, lo: nat, hi: nat, p: Milestone): nat
    requires lo <= hi <= |log|
    decreases hi - lo
  {
    if lo == hi then 0 else Count(log, lo, hi - 1, p) + if Reaches(log[hi - 1].event, p) then 1 else 0
  }

  lemma {:induction false} CountOfPrefix(log: seq<Taken>, shorter: seq<Taken>, lo: nat, hi: nat, p: Milestone)
    requires lo <= hi <= |shorter| <= |log| && shorter == log[..|shorter|]
    ensures Count(log, lo, hi, p) == Count(shorter, lo, hi, p)
    decreases hi - lo
  {
    if lo < hi {
      CountOfPrefix(log, shorter, lo, hi - 1, p);
      assert log[hi - 1] == shorter[hi - 1];
    }
  }

  /** log[k] belongs to the attempt opened at log[i]; hops are authenticated one after the other. */
  ghost predicate Belongs(log: seq<Taken>, i: nat, k: nat)
    requires i < k < |log| && log[i].event.HopConnecting?
  {
    && !log[k].event.HopConnecting?
    && log[k].after.state.generation == log[i].event.generation
    && (Tag(log[k].event).Some? ==> Tag(log[k].event).value == log[i].event.generation)
    && (log[k].event.HopAuthenticated? ==>
          log[k].before.state.runtime ==
            Authenticating(log[i].event.hop + Count(log, i, k, HopDone), log[i].event.totalHops))
  }

  /** log[i] opened the connection attempt in progress at the end of `log`, in the current generation. */
  ghost predicate Attempt(log: seq<Taken>, i: nat) {
    && i < |log|
    && log[i].event.HopConnecting?
    && log[i].after.state.generation == log[i].event.generation
    && (forall k | i < k < |log| :: Belongs(log, i, k))
  }

  /** What the attempt opened at log[i] has done so far, as the final value shows it. */
  ghost predicate Progress(log: seq<Taken>, i: nat)
    requires i < |log| && log[i].event.HopConnecting?
  {
    var m := log[|log| - 1].after;
    var r := m.state.runtime;
    var h0 := log[i].event.hop;
    var n := log[i].event.totalHops;
    var hops := Count(log, i, |log|, HopDone);
    var auths := Count(log, i, |log|, ChainDone);
    var readies := Count(log, i, |log|, ForwardUp);
    && 1 <= h0 <= n
    && (r.Connecting? || r.Authenticating? ==>
          r.totalHops == n && r.hop == h0 + hops && auths == 0 && readies == 0)
    && (m.state.health.authenticated ==> hops == n - h0 && auths == 1)
    && (r.EstablishingForward? ==> readies == 0)
    && (m.state.health.forwardReady ==> m.state.health.authenticated && readies == 1)
  }

  /** The phases in which a connection attempt is under way or has produced a usable session. */
  predicate InAttempt(m: Machine) {
    var r := m.state.runtime;
    r.Connecting? || r.Authenticating? || r.EstablishingForward? || r.Healthy? || r.Degraded?
    || m.state.health.authenticated
  }

  lemma {:induction false} AttemptProvenance(required: bool, log: seq<Taken>) returns (i: nat)
    requires Chain(New(required), log) && InAttempt(Final(New(required), log))
    ensures Attempt(log, i) && Progress(log, i)
  {
    var t := log[|log| - 1];
    ChainInit(New(required), log);
    ReachableIsConsistent(required, log[..|log| - 1]);
    if t.event.HopConnecting? {
      i := |log| - 1;
      OpensAttempt(log);
    } else {
      StepKeepsConsistent(t);
      StaysInAttempt(t);
      i := AttemptProvenance(required, log[..|log| - 1]);
      ExtendsAttempt(log, i);
    }
  }

  lemma OpensAttempt(log: seq<Taken>)
    requires |log| > 0
    requires var t := log[|log| - 1]; Follows(t) && t.event.HopConnecting?
    ensures Attempt(log, |log| - 1) && Progress(log, |log| - 1)
  {
    var i := |log| - 1;
    assert Count(log, i, i, HopDone) == 0 && Count(log, i, i, ChainDone) == 0 && Count(log, i, i, ForwardUp) == 0;
  }

  /** How one transition inside an attempt, other than opening a new one, moves it forward. */
  ghost predicate AttemptStep(t: Taken) {
    var b, a := t.before.state, t.after.state;
    && a.generation == b.generation
    && (Tag(t.event).Some? ==> Tag(t.event).value == b.generation)
    && (t.event.HopAuthenticated? ==>
          b.runtime.Authenticating? && a.runtime == Connecting(b.runtime.hop + 1, b.runtime.totalHops, 0))
    && (t.event.Authenticated? ==>
          b.runtime.Authenticating? && b.runtime.hop == b.runtime.totalHops && a.runtime.EstablishingForward?)
    && (t.event.ForwardReady? ==> b.runtime.EstablishingForward? && a.runtime.Starting?)
    && (a.runtime.Connecting? ==> t.event.HopAuthenticated?)
    && (a.runtime.Authenticating? ==>
          b.runtime.Connecting? && a.runtime == Authenticating(b.runtime.hop, b.runtime.totalHops)
          && t.event.HopAuthenticating?)
    && (a.runtime.EstablishingForward? ==> t.event.Authenticated?)
    && (a.health.authenticated ==> b.health.authenticated || t.event.Authenticated?)
    && (a.health.forwardReady ==> b.health.forwardReady || t.event.ForwardReady?)
    && (a.health.forwardReady ==> a.health.authenticated)
    && (b.health.authenticated ==> !t.event.HopAuthenticated? && !t.event.Authenticated?)
    && (b.health.forwardReady ==> !t.event.ForwardReady?)
  }

  lemma StaysInAttempt(t: Taken)
    requires Follows(t) && Consistent(t.before) && Consistent(t.after)
    requires InAttempt(t.after) && !t.event.HopConnecting?
    ensures InAttempt(t.before) && AttemptStep(t)
  {
  }

  lemma ExtendsAttempt(log: seq<Taken>, i: nat)
    requires |log| > 1 && i < |log| - 1
    requires var init := log[..|log| - 1]; Attempt(init, i) && Progress(init, i)
    requires var t := log[|log| - 1];
             t.before == log[|log| - 2].after && AttemptStep(t) && !t.event.HopConnecting?
    ensures Attempt(log, i) && Progress(log, i)
  {
    ExtendsCourse(log, i);
    ExtendsProgress(log, i);
  }

  lemma ExtendsCourse(log: seq<Taken>, i: nat)
    requires |log| > 1 && i < |log| - 1
    requires var init := log[..|log| - 1]; Attempt(init, i) && Progress(init, i)
    requires var t := log[|log| - 1];
             t.before == log[|log| - 2].after && AttemptStep(t) && !t.event.HopConnecting?
    ensures Attempt(log, i)
  {
    var last := |log| - 1;
    var init := log[..last];
    assert log[i] == init[i] && log[last - 1] == init[last - 1];
    CountOfPrefix(log, init, i, last, HopDone);
    GenerationOfAttempt(init, i);
    forall k | i < k < |log| ensures Belongs(log, i, k) {
      if k < last {
        BelongsInPrefix(log, init, i, k);
      }
    }
  }

  lemma GenerationOfAttempt(log: seq<Taken>, i: nat)
    requires Attempt(log, i)
    ensures log[|log| - 1].after.state.generation == log[i].event.generation
  {
    if i < |log| - 1 {
      assert Belongs(log, i, |log| - 1);
    }
  }

  lemma BelongsInPrefix(log: seq<Taken>, init: seq<Taken>, i: nat, k: nat)
    requires i < k < |init| <= |log| && init == log[..|init|] && init[i].event.HopConnecting?
    requires Belongs(init, i, k)
    ensures Belongs(log, i, k)
  {
    CountOfPrefix(log, init, i, k, HopDone);
    assert log[k] == init[k] && log[i] == init[i];
  }

  lemma ExtendsProgress(log: seq<Taken>, i: nat)
    requires |log| > 1 && i < |log| - 1
    requires var init := log[..|log| - 1]; Attempt(init, i) && Progress(init, i)
    requires var t := log[|log| - 1];
             t.before == log[|log| - 2].after && AttemptStep(t) && !t.event.HopConnecting?
    ensures log[i].event.HopConnecting? && Progress(log, i)
  {
    var last := |log| - 1;
    var init := log[..last];
    CountOfPrefix(log, init, i, last, HopDone);
    CountOfPrefix(log, init, i, last, ChainDone);
    CountOfPrefix(log, init, i, last, ForwardUp);
    assert log[i] == init[i] && log[last - 1] == init[last - 1];
  }

  /**
    Healthy is earned: the machine is Healthy only if, in the current generation, some Connecting event
    for hop h0 of n was followed - with no later Connecting - by exactly n - h0 hop authentications in
    hop order, one final authentication, one ForwardReady, and then a successful ping.
  */
  lemma HealthyIsEarned(required: bool, log: seq<Taken>) returns (i: nat, ready: nat, ping: nat)
    requires Chain(New(required), log) && Final(New(required), log).state.runtime.Healthy?
    ensures Attempt(log, i)
    ensures Count(log, i, |log|, HopDone) == log[i].event.totalHops - log[i].event.hop
    ensures Count(log, i, |log|, ChainDone) == 1 && Count(log, i, |log|, ForwardUp) == 1
    ensures i < ready < ping < |log| && log[ready].event.ForwardReady? && log[ping].event.PingSucceeded?
    ensures Count(log, i, ready, ChainDone) == 1
  {
    ReachableIsConsistent(required, log);
    i := AttemptProvenance(required, log);
    ready := FindReady(log, i, |log|);
    ping := LastPing(required, log, ready);
    AuthBeforeReady(required, log, i, ready);
  }

  lemma {:induction false} FindReady(log: seq<Taken>, i: nat, hi: nat) returns (k: nat)
    requires i <= hi <= |log| && i < |log| && log[i].event.HopConnecting?
    requires Count(log, i, hi, ForwardUp) == 1
    ensures i < k < hi && log[k].event.ForwardReady?
  {
    if log[hi - 1].event.ForwardReady? {
      k := hi - 1;
    } else {
      k := FindReady(log, i, hi - 1);
    }
  }

  lemma {:induction false} LastPing(required: bool, log: seq<Taken>, ready: nat) returns (p: nat)
    requires Chain(New(required), log) && ready < |log| && log[ready].event.ForwardReady?
    requires Final(New(required), log).state.runtime.Healthy?
    ensures ready < p < |log| && log[p].event.PingSucceeded?
  {
    var last := |log| - 1;
    ChainInit(New(required), log);
    StaysHealthy(log[last]);
    if log[last].event.PingSucceeded? {
      p := last;
    } else {
      p := LastPing(required, log[..last], ready);
    }
  }

  lemma StaysHealthy(t: Taken)
    requires Follows(t) && t.after.state.runtime.Healthy?
    ensures t.event.PingSucceeded? || (t.before.state.runtime.Healthy? && !t.event.ForwardReady?)
  {
  }

  /** ForwardReady is only taken once the last hop has been authenticated. */
  lemma AuthBeforeReady(required: bool, log: seq<Taken>, i: nat, ready: nat)
    requires Chain(New(required), log) && Attempt(log, i) && i < ready < |log| && log[ready].event.ForwardReady?
    ensures Count(log, i, ready, ChainDone) == 1
  {
    var before := log[..ready];
    assert Chain(New(required), log[..ready + 1]) && log[..ready + 1][..ready] == before;
    ChainInit(New(required), log[..ready + 1]);
    ReachableIsConsistent(required, before);
    ReadyFollowsAuth(log[ready]);
    var i' := AttemptProvenance(required, before);
    OneAttempt(log, i, ready, i');
    CountOfPrefix(log, before, i, ready, ChainDone);
  }

  lemma ReadyFollowsAuth(t: Taken)
    requires Follows(t) && Consistent(t.before) && t.event.ForwardReady?
    ensures t.before.state.health.authenticated
  {
  }

  lemma OneAttempt(log: seq<Taken>, i: nat, hi: nat, i': nat)
    requires Attempt(log, i) && i < hi < |log| && Attempt(log[..hi], i')
    ensures i' == i
  {
    assert log[..hi][i] == log[i] && log[..hi][i'] == log[i'];
    assert log[i].event.HopConnecting? && log[i'].event.HopConnecting?;
    assert forall k | i < k < hi && Belongs(log, i, k) :: !log[k].event.HopConnecting?;
    assert forall k | i' < k < hi && Belongs(log[..hi], i', k) :: !log[k].event.HopConnecting?;
  }

  // ----- progress -----

  /** How far an attempt is from a usable session; zero when none is under way. */
  function Distance(m: Machine): int {
    match m.state.runtime
    case Connecting(hop, total, _) => 2 * (total - hop) + 3
    case Authenticating(hop, total) => 2 * (total - hop) + 2
    case EstablishingForward => 1
    case _ => 0
  }

  predicate IsProgress(e: Event) {
    e.HopAuthenticating? || e.HopAuthenticated? || e.Authenticated? || e.ForwardReady?
  }

  lemma DistanceStep(t: Taken)
    requires Follows(t) && Consistent(t.before) && !t.event.HopConnecting?
    ensures 0 <= Distance(t.after) <= Distance(t.before) - if IsProgress(t.event) then 1 else 0
  {
  }

  function ProgressMade(log: seq<Taken>, lo: nat, hi: nat): nat
    requires lo <= hi <= |log|
    decreases hi - lo
  {
    if lo == hi then 0 else ProgressMade(log, lo, hi - 1) + if IsProgress(log[hi - 1].event) then 1 else 0
  }

  /** Every progress event brings the attempt strictly closer, so an attempt sees only so many of them. */
  lemma {:induction false} AttemptIsShort(required: bool, log: seq<Taken>, i: nat, n: nat)
    requires Chain(New(required), log) && i < n <= |log| && log[i].event.HopConnecting?
    requires forall k | i < k < n :: !log[k].event.HopConnecting?
    ensures 0 <= Distance(log[n - 1].after)
    ensures ProgressMade(log, i + 1, n) + Distance(log[n - 1].after)
            <= 2 * (log[i].event.totalHops - log[i].event.hop) + 3
    decreases n
  {
    assert Follows(log[n - 1]);
    if i + 1 < n {
      AttemptIsShort(required, log, i, n - 1);
      assert Final(New(required), log[..n - 1]) == log[n - 1].before;
      ReachableIsConsistent(required, log[..n - 1]);
      DistanceStep(log[n - 1]);
    }
  }

  // ----- the journal -----

  /** Journal lines link up, their generations never decrease, and the newest shows the current phase and generation. */
  lemma JournalLinks(m: Machine, log: seq<Taken>, k: nat)
    requires Chain(m, log) && k < |log|
    ensures k + 1 < |log| ==>
      Entry(log[k]).to == Entry(log[k + 1]).from && Entry(log[k]).generation <= Entry(log[k + 1]).generation
    ensures var last := Entry(log[|log| - 1]);
            last.to == PhaseOf(Final(m, log).state.runtime) && last.generation == Final(m, log).state.generation
  {
    if k + 1 < |log| {
      StepGeneration(log[k + 1]);
    }
  }
}
