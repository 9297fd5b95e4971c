/** The value types of the tunnel lifecycle: states, events, effects, journal entries. */
module LifecycleTypes {
  import opened Wrappers

  const U8_MAX: nat := 0xFF
  const U32_MAX: nat := 0xFFFF_FFFF
  const U64_MAX: nat := 0xFFFF_FFFF_FFFF_FFFF
  const PING_FAILURE_LIMIT: nat := 3

  datatype SocketAddr = SocketAddr(host: string, port: nat, display: string)

  datatype Retryability = Transient | Permanent

  datatype ErrorKind = Network | Timeout | PortConflict | PermissionDenied | InvalidConfig | OtherKind

  datatype FailureStage = BindLocalPort | HealthCheck | OtherStage

  datatype TunnelError = TunnelError(
    kind: ErrorKind, stage: FailureStage, message: string, retryability: Retryability)

  datatype DesiredState = WantStopped | WantRunning

  datatype StartPhase =
    | Validating
    | AcquiringListener
    | BuildingJumpChain
    | RegisteringRemoteForward
    | StartingHealthMonitor

  datatype HealthIssue = PingTimeout | SessionLost

  datatype RuntimeState =
    | Stopped
    | Starting(phase: StartPhase)
    | Connecting(hop: nat, totalHops: nat, attempt: nat)
    | Authenticating(hop: nat, totalHops: nat)
    | EstablishingForward
    | Healthy(since: nat)
    | Degraded(since: nat, issue: HealthIssue)
    | Reconnecting(attempt: nat, nextRetryAt: nat, reason: TunnelError)
    | Blocked(reason: TunnelError)
    | Stopping
    | Failed(reason: TunnelError)

  datatype ListenerState =
    | NotRequired
    | Unbound
    | Bound(address: SocketAddr)
    | Conflict(address: SocketAddr, ownerHint: Option<string>)

  datatype HealthState = HealthState(
    authenticated: bool, forwardReady: bool, lastRttMs: Option<nat>, consecutivePingFailures: nat)

  const DEFAULT_HEALTH := HealthState(false, false, None, 0)

  datatype Lifecycle = Lifecycle(
    desired: DesiredState,
    runtime: RuntimeState,
    listener: ListenerState,
    health: HealthState,
    generation: nat)

  datatype RuntimePhase =
    | PStopped
    | PStarting
    | PConnecting
    | PAuthenticating
    | PEstablishingForward
    | PHealthy
    | PDegraded
    | PReconnecting
    | PBlocked
    | PStopping
    | PFailed

  function PhaseOf(r: RuntimeState): RuntimePhase {
    match r
    case Stopped => PStopped
    case Starting(_) => PStarting
    case Connecting(_, _, _) => PConnecting
    case Authenticating(_, _) => PAuthenticating
    case EstablishingForward => PEstablishingForward
    case Healthy(_) => PHealthy
    case Degraded(_, _) => PDegraded
    case Reconnecting(_, _, _) => PReconnecting
    case Blocked(_) => PBlocked
    case Stopping => PStopping
    case Failed(_) => PFailed
  }

  datatype Event =
    | Start
    | Stop
    | Restart
    | ConfigChanged
    | ShutdownComplete(generation: nat)
    | StartPhaseReached(generation: nat, phase: StartPhase)
    | ListenerBound(generation: nat, address: SocketAddr)
    | ListenerConflict(generation: nat, address: SocketAddr)
    | HopConnecting(generation: nat, hop: nat, totalHops: nat, attempt: nat)
    | HopAuthenticating(generation: nat, hop: nat, totalHops: nat)
    | Authenticated(generation: nat)
    | HopAuthenticated(generation: nat)
    | ForwardReady(generation: nat)
    | PingSucceeded(generation: nat, at: nat, rttMs: nat)
    | PingFailed(generation: nat, at: nat, attempt: nat, nextRetryAt: nat)
    | Disconnected(generation: nat, error: TunnelError, attempt: nat, nextRetryAt: nat)

  /** The generation an asynchronous result carries; user commands carry none. */
  function Tag(e: Event): Option<nat> {
    if e.Start? || e.Stop? || e.Restart? || e.ConfigChanged? then None else Some(e.generation)
  }

  function Cause(e: Event): string {
    match e
    case Start => "start"
    case Stop => "stop"
    case Restart => "restart"
    case ConfigChanged => "config_changed"
    case ShutdownComplete(_) => "shutdown_complete"
    case StartPhaseReached(_, _) => "start_phase"
    case ListenerBound(_, _) => "listener_bound"
    case ListenerConflict(_, _) => "listener_conflict"
    case HopConnecting(_, _, _, _) => "connecting"
    case HopAuthenticating(_, _, _) => "authenticating"
    case Authenticated(_) => "authenticated"
    case HopAuthenticated(_) => "hop_authenticated"
    case ForwardReady(_) => "forward_ready"
    case PingSucceeded(_, _, _) => "ping_succeeded"
    case PingFailed(_, _, _, _) => "ping_failed"
    case Disconnected(_, _, _, _) => "disconnected"
  }

  datatype TransitionEffect = BeginGeneration(generation: nat) | CancelAndJoin(generation: nat)

  datatype StateTransition = StateTransition(
    from: RuntimePhase, to: RuntimePhase, at: nat, cause: string, generation: nat)

  datatype EventOutcome = Applied(effect: Option<TransitionEffect>) | IgnoredStale | NoChange

  datatype MachineError =
    | InvalidTransition(event: string, phase: RuntimePhase)
    | GenerationExhausted
    | InvalidHop
}
