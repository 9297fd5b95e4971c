/**
  The lifecycle reducer as a relation: for every machine value and event, whether the event is
  stale, ignored, refused or taken (`Judge`), and for a taken event the new value (`Target`) and
  the effect (`EffectOf`).  The class `StateMachine` is proved to follow it, and the lifecycle
  theorems are proved about it.
*/
module Reducer {
  import opened Wrappers
  import opened LifecycleTypes

  /** Everything `transition` reads or writes except the journal. */
  datatype Machine = Machine(state: Lifecycle, restartAfterShutdown: bool, listenerRequired: bool)

  function IdleListener(required: bool): ListenerState {
    if required then Unbound else NotRequired
  }

  function New(required: bool): Machine {
    Machine(Lifecycle(WantStopped, Stopped, IdleListener(required), DEFAULT_HEALTH, 0), false, required)
  }

  datatype Verdict = Stale | Ignore | Refuse(error: MachineError) | Take

  predicate AcceptsWork(m: Machine) {
    var phase := PhaseOf(m.state.runtime);
    && m.state.desired == WantRunning
    && phase !in {PStopping, PStopped, PBlocked, PFailed}
  }

  predicate InPhase(m: Machine, phases: set<RuntimePhase>) {
    AcceptsWork(m) && PhaseOf(m.state.runtime) in phases
  }

  predicate SessionUsable(m: Machine) {
    m.state.health.authenticated && m.state.health.forwardReady
  }

  function NeedsNewGeneration(m: Machine): Verdict {
    if m.state.generation < U64_MAX then Take else Refuse(GenerationExhausted)
  }

  function TakeIf(m: Machine, e: Event, legal: bool): Verdict {
    if legal then Take else Refuse(InvalidTransition(Cause(e), PhaseOf(m.state.runtime)))
  }

  predicate HopInChain(hop: nat, totalHops: nat) {
    1 <= hop <= totalHops
  }

  function Judge(m: Machine, e: Event): Verdict {
    var s := m.state;
    if Tag(e).Some? && Tag(e).value != s.generation then Stale
    else match e
      case Start => if s.runtime.Stopped? then NeedsNewGeneration(m) else TakeIf(m, e, false)
      case Stop => if s.runtime.Stopped? || s.runtime.Stopping? then Ignore else NeedsNewGeneration(m)
      case Restart => if s.runtime.Stopping? then Ignore else NeedsNewGeneration(m)
      case ConfigChanged => if s.runtime.Stopping? then Ignore else NeedsNewGeneration(m)
      case ShutdownComplete(_) => TakeIf(m, e, s.runtime.Stopping?)
      case StartPhaseReached(_, _) => TakeIf(m, e, InPhase(m, {PStarting}))
      case ListenerBound(_, _) => TakeIf(m, e, CanBind(m))
      case ListenerConflict(_, _) => TakeIf(m, e, CanBind(m))
      case HopConnecting(_, hop, total, _) =>
        if !(InPhase(m, {PStarting, PReconnecting})
             && (s.runtime.Starting? ==> s.runtime.phase == BuildingJumpChain))
        then TakeIf(m, e, false)
        else if HopInChain(hop, total) then Take else Refuse(InvalidHop)
      case HopAuthenticating(_, hop, total) =>
        if !InPhase(m, {PConnecting}) then TakeIf(m, e, false)
        else if !HopInChain(hop, total) then Refuse(InvalidHop)
        else TakeIf(m, e, s.runtime.hop == hop && s.runtime.totalHops == total)
      case Authenticated(_) =>
        TakeIf(m, e, InPhase(m, {PAuthenticating}) && s.runtime.hop == s.runtime.totalHops)
      case HopAuthenticated(_) =>
        TakeIf(m, e, InPhase(m, {PAuthenticating}) && s.runtime.hop < s.runtime.totalHops)
      case ForwardReady(_) => TakeIf(m, e, InPhase(m, {PEstablishingForward}))
      case PingSucceeded(_, _, _) =>
        TakeIf(m, e, InPhase(m, {PStarting, PHealthy, PDegraded}) && SessionUsable(m))
      case PingFailed(_, _, _, _) =>
        TakeIf(m, e, InPhase(m, {PStarting, PHealthy, PDegraded}) && SessionUsable(m))
      case Disconnected(_, _, _, _) => TakeIf(m, e, AcceptsWork(m))
  }

  predicate CanBind(m: Machine) {
    && AcceptsWork(m)
    && m.state.runtime == Starting(AcquiringListener)
    && m.listenerRequired
    && m.state.listener.Unbound?
  }

  /** A fresh attempt in generation `g`. */
  function Begun(m: Machine, g: nat): Machine {
    m.(state := Lifecycle(WantRunning, Starting(Validating), IdleListener(m.listenerRequired), DEFAULT_HEALTH, g))
  }

  /** Shutting down towards `desired`: the generation moves on so that older results become stale. */
  function ShuttingDown(m: Machine, desired: DesiredState): Machine {
    m.(state := m.state.(desired := desired, runtime := Stopping, health := DEFAULT_HEALTH,
                         generation := m.state.generation + 1),
       restartAfterShutdown := desired == WantRunning)
  }

  function ConflictError(address: SocketAddr): TunnelError {
    TunnelError(PortConflict, BindLocalPort, "Port " + address.display + " is already in use", Permanent)
  }

  const PING_TIMEOUT_ERROR := TunnelError(Timeout, HealthCheck, "SSH session ping timed out", Transient)

  function AfterPingSuccess(s: Lifecycle, at: nat, rttMs: nat): Lifecycle {
    s.(health := s.health.(lastRttMs := Some(Min(rttMs, U32_MAX)), consecutivePingFailures := 0),
       runtime := if s.runtime.Healthy? then s.runtime else Healthy(at))
  }

  function AfterPingFailure(s: Lifecycle, at: nat, attempt: nat, nextRetryAt: nat): Lifecycle {
    var failures := Min(s.health.consecutivePingFailures + 1, U8_MAX);
    var health := s.health.(consecutivePingFailures := failures);
    if failures >= PING_FAILURE_LIMIT then
      s.(health := health.(authenticated := false, forwardReady := false),
         runtime := Reconnecting(attempt, nextRetryAt, PING_TIMEOUT_ERROR))
    else
      s.(health := health, runtime := if s.runtime.Degraded? then s.runtime else Degraded(at, PingTimeout))
  }

  function Target(m: Machine, e: Event): Machine
    requires Judge(m, e).Take?
  {
    var s := m.state;
    match e
    case Start => Begun(m, s.generation + 1)
    case Stop => ShuttingDown(m, WantStopped)
    case Restart => if s.runtime.Stopped? then Begun(m, s.generation + 1)
                    else ShuttingDown(m, s.desired).(restartAfterShutdown := true)
    case ConfigChanged => if s.runtime.Stopped? then m.(state := s.(generation := s.generation + 1))
                          else ShuttingDown(m, s.desired)
    case ShutdownComplete(_) =>
      if m.restartAfterShutdown then Begun(m, s.generation).(restartAfterShutdown := false)
      else m.(state := s.(runtime := Stopped, listener := IdleListener(m.listenerRequired), health := DEFAULT_HEALTH))
    case StartPhaseReached(_, phase) => m.(state := s.(runtime := Starting(phase)))
    case ListenerBound(_, address) => m.(state := s.(listener := Bound(address)))
    case ListenerConflict(_, address) =>
      m.(state := s.(listener := Conflict(address, None), runtime := Blocked(ConflictError(address))))
    case HopConnecting(_, hop, total, attempt) =>
      m.(state := s.(health := DEFAULT_HEALTH, runtime := Connecting(hop, total, attempt)))
    case HopAuthenticating(_, hop, total) => m.(state := s.(runtime := Authenticating(hop, total)))
    case Authenticated(_) =>
      m.(state := s.(health := s.health.(authenticated := true), runtime := EstablishingForward))
    case HopAuthenticated(_) =>
      m.(state := s.(runtime := Connecting(s.runtime.hop + 1, s.runtime.totalHops, 0)))
    case ForwardReady(_) =>
      m.(state := s.(health := s.health.(forwardReady := true), runtime := Starting(StartingHealthMonitor)))
    case PingSucceeded(_, at, rtt) => m.(state := AfterPingSuccess(s, at, rtt))
    case PingFailed(_, at, attempt, next) => m.(state := AfterPingFailure(s, at, attempt, next))
    case Disconnected(_, error, attempt, next) =>
      m.(state := s.(health := DEFAULT_HEALTH,
                     runtime := if error.retryability.Transient? then Reconnecting(attempt, next, error)
                                else Blocked(error)))
  }

  function EffectOf(m: Machine, e: Event): Option<TransitionEffect>
    requires Judge(m, e).Take?
  {
    var s := m.state;
    match e
    case Start => Some(BeginGeneration(s.generation + 1))
    case Stop => Some(CancelAndJoin(s.generation))
    case Restart => Some(if s.runtime.Stopped? then BeginGeneration(s.generation + 1) else CancelAndJoin(s.generation))
    case ConfigChanged => if s.runtime.Stopped? then None else Some(CancelAndJoin(s.generation))
    case ShutdownComplete(_) => if m.restartAfterShutdown then Some(BeginGeneration(s.generation)) else None
    case _ => None
  }

  /** One call of the reducer: the value afterwards and the answer. */
  function React(m: Machine, e: Event): (Machine, Result<EventOutcome, MachineError>) {
    match Judge(m, e)
    case Stale => (m, Ok(IgnoredStale))
    case Ignore => (m, Ok(NoChange))
    case Refuse(error) => (m, Err(error))
    case Take => (Target(m, e), Ok(Applied(EffectOf(m, e))))
  }

  /** One Applied transition. */
  datatype Taken = Taken(
    before: Machine, event: Event, after: Machine, effect: Option<TransitionEffect>, at: nat)

  predicate Follows(t: Taken) {
    && Judge(t.before, t.event).Take?
    && t.after == Target(t.before, t.event)
    && t.effect == EffectOf(t.before, t.event)
  }

  /** `log` lists Applied transitions, in order, starting from the value `m`. */
  ghost predicate Chain(m: Machine, log: seq<Taken>) {
    && (forall i | 0 <= i < |log| :: Follows(log[i]))
    && (|log| > 0 ==> log[0].before == m)
    && (forall i | 0 < i < |log| :: log[i].before == log[i - 1].after)
  }

  function Final(m: Machine, log: seq<Taken>): Machine {
    if |log| == 0 then m else log[|log| - 1].after
  }

  /** The journal line the source writes for one Applied transition. */
  function Entry(t: Taken): StateTransition {
    StateTransition(PhaseOf(t.before.state.runtime), PhaseOf(t.after.state.runtime), t.at, Cause(t.event),
                    t.after.state.generation)
  }
}
