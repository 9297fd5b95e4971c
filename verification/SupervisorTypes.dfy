/** What a supervisor task publishes about its tunnel. */
module SupervisorTypes {
  import opened Wrappers
  import opened Domain
  import opened Validation
  import L = LifecycleTypes

  /** The text shown to the user, by origin. */
  datatype Reason =
    | InvalidTunnel(error: ValidationError)
    | BadListenerAddress
    | ListenerFailed
    | TaskExited(message: string)
    | Failure(message: string)

  datatype SupervisorState =
    | Connecting(attempt: nat)
    | Reconnecting(attempt: nat, delayMs: int, reason: Reason)
    | Healthy(rtts: seq<nat>, remotePort: Option<nat>)
    | Degraded(failedPings: nat, reason: Reason)
    | Blocked(reason: Reason)
    | Stopped

  /** How dialing a chain ends; a refusal is a failure that retrying does not cure. */
  datatype DialResult = ChainUp | Unreachable | Refused

  datatype TunnelView = TunnelView(state: SupervisorState, localAddr: Option<L.SocketAddr>)

  const STOPPED_VIEW := TunnelView(Stopped, None)

  /** A running supervisor task, and the part it depends on of what its closure captured when it was spawned. */
  datatype ActiveTunnel = ActiveTunnel(task: nat, plan: ConnectionPlan)
}
