# TunnelWarden: a verified model of the tunnel supervisor

TunnelWarden keeps SSH tunnels up.  What it promises its users is strict ownership of resources, rejection of stale
results by generation, and a Stop that can be relied on.  This project models the code behind those promises in Dafny
and proves them for every run, together with the byte-level and configuration-level algorithms underneath.

`dafny verify dfyconfig.toml` checks everything.

| files | what they model |
|---|---|
| `LifecycleTypes`, `Reducer`, `StateMachine`, `LifecycleTheorems`, `HealthLoop` | the lifecycle reducer, its journal, and what every history of it keeps |
| `ListenerRuntime` | the owner of a bound port, driving the reducer |
| `LocalProtocol`, `LocalSupervisor` | the local and dynamic forwarding task: a protocol of observable actions, and the loops that are proved to follow it |
| `RemoteSession`, `RemoteProtocol`, `RemoteSupervisor` | the remote forwarding task, its session tokens, registrations and channel gate |
| `SupervisorTypes`, `TaskLedger`, `Manager` | the tunnel manager as the single owner of all tasks |
| `Utf8`, `Socks5`, `SocksConnection`, `Relay` | the SOCKS5 front end (RFC 1928 sections 3 to 6), the connection handler and the relay |
| `Chain` | connecting and closing a chain of SSH sessions |
| `Domain`, `Validation`, `Retry`, `Schema` | configuration values, the checks before a start, reconnect timing, and the document format |
| `SshWords`, `SshInclude`, `SshResolve`, `SshImport` | importing an OpenSSH configuration |

Code that works in place is a class or a loop here; each such method is proved against a function or a protocol, and
the theorems are about that function or about every history of that protocol.  Each arm of a `select!` is one atomic
step.  What comes from outside (connection, ping, bind and accept outcomes, elapsed times, random jitter, file
contents, glob and IP text matching) is a parameter or an arbitrary choice.  Supervisor and manager loops take the
number of turns or the list of inputs as a parameter, so a theorem about them holds for every finite prefix of a run.

Some statements one might expect are false of the code.  They are stated here as they are: Stop is lost while a
restart is shutting down (`StopIsFinalExactlyWhen`), Healthy follows cancellation (`HealthyAfterCancelExactlyWhen`; a
local or dynamic task shows a ping that had already succeeded, a remote task also finishes opening a session, whose token
is its own), a document reads back differently under an unusual home directory (`RoundTripsExactlyWhen`), and an imported
host cannot be saved with a blank alias, hostname or user, a timeout of too many milliseconds or, where there is no home
directory, a key path that still begins with `~` after import, such as a bare `~` (`ImportIsSavedExactlyWhen`).  Each
comes with its exact condition and a failing input.

## Model

| member | source | states |
|---|---|---|
| StateMachineModule.StateMachine.Transition | crates/tunnel-core/src/state_machine.rs:231-507 | one call answers and changes the state as the reducer relation says; an error, a stale event or NoChange leaves state, history and journal untouched; the journal is always the last 200 Applied transitions |
| StateMachineModule.StateMachine.Record | crates/tunnel-core/src/state_machine.rs:591-602 | the journal drops its oldest entry only when full, so it stays equal to the newest 200 entries of the whole history |
| StateMachineModule.JournalIsLinked | crates/tunnel-core/src/state_machine.rs:591-602 | also after old entries were dropped, lines next to each other in the journal link up |
| StateMachineModule.JournalIsCurrent | crates/tunnel-core/src/state_machine.rs:591-602 | the journal's newest line shows the current phase and generation, and the time and cause of the last transition |
| StateMachineModule.StateMachine.Begin | crates/tunnel-core/src/state_machine.rs:518-529 | a fresh attempt: desired Running, validating, listener idle, health cleared, generation kept |
| StateMachineModule.StateMachine.NextGeneration | crates/tunnel-core/src/state_machine.rs:509-516 | the generation advances by one, or the call fails at the last 64-bit value and changes nothing |
| LifecycleTheorems.ReachableIsConsistent | crates/tunnel-core/src/state_machine.rs:231-529 | every reachable state satisfies one joint invariant over phase, desired state, listener, health, restart flag and ping counter; Failed is unreachable |
| LifecycleTheorems.EffectsAlternate | crates/tunnel-core/src/state_machine.rs:241-315 | over every run effects are Begin(g1), Cancel(g1), Begin(g2), ... with strictly increasing generations, and a pending Begin belongs to the current generation of an active machine |
| LifecycleTheorems.ShutdownFollowsCancel | crates/tunnel-core/src/state_machine.rs:249-315 | the very next Applied transition after a cancellation is the acknowledgement of that shutdown |
| LifecycleTheorems.ShutdownEndsAsAsked | crates/tunnel-core/src/state_machine.rs:249-315 | in every run a cancellation comes from Stop, Restart or ConfigChanged; after Stop the shutdown leaves the tunnel down, after the others it begins a fresh attempt in the next generation with Running desired |
| LifecycleTheorems.CommandsAlwaysWork | crates/tunnel-core/src/state_machine.rs:249-315 | from every reachable state that is not shutting down, while generations last, Stop and its acknowledgement bring the tunnel down, Restart and its acknowledgement to a fresh attempt |
| LifecycleTheorems.ConfigChangeRestarts | crates/tunnel-core/src/state_machine.rs:280-297 | a changed configuration takes a stopped tunnel to the next generation and restarts any other |
| LifecycleTheorems.CancelledGenerationIsSilent | crates/tunnel-core/src/state_machine.rs:231-236 | once a generation is cancelled no event tagged with it or an older one is ever Applied |
| LifecycleTheorems.GenerationsNeverDecrease | crates/tunnel-core/src/state_machine.rs:509-516 | generations never decrease along a run |
| LifecycleTheorems.AppliedStopIsFinal | crates/tunnel-core/src/state_machine.rs:249-315 | after an Applied Stop nothing begins before an Applied Start or Restart |
| LifecycleTheorems.StopIsFinalExactlyWhen | crates/tunnel-core/src/state_machine.rs:249-255 | issuing Stop is final for every continuation if and only if the state is not Stopping with Running desired, the shutdown of a restart |
| LifecycleTheorems.StopDuringRestartIsLost | crates/tunnel-core/src/state_machine.rs:307-310 | the run in which Stop arrives during a restart's shutdown, is answered NoChange, and the tunnel comes back |
| LifecycleTheorems.AttemptProvenance | crates/tunnel-core/src/state_machine.rs:351-418 | whatever state an attempt shows, the history holds the Connecting event that opened it, its hop authentications in hop order, and nothing of another generation in between |
| LifecycleTheorems.HealthyIsEarned | crates/tunnel-core/src/state_machine.rs:351-438 | Healthy is reached only after exactly n - h0 hop authentications, one final authentication, one ForwardReady and then a successful ping, all of the current generation |
| LifecycleTheorems.AuthBeforeReady | crates/tunnel-core/src/state_machine.rs:393-418 | the final authentication precedes ForwardReady inside an attempt |
| LifecycleTheorems.AttemptIsShort | crates/tunnel-core/src/state_machine.rs:351-418 | every progress event strictly shrinks the distance to a usable session, which bounds the progress events of an attempt by its hops |
| LifecycleTheorems.FailureIsExplained | crates/tunnel-core/src/state_machine.rs:329-507 | in every reachable state Reconnecting shows a transient failure and Blocked a permanent one, with error, attempt and time as the last event reported them |
| LifecycleTheorems.HealthySinceFirstPing | crates/tunnel-core/src/state_machine.rs:419-438 | a Healthy tunnel is so since the first of an unbroken row of good pings, and shows the round-trip time of the last |
| LifecycleTheorems.DegradedSinceFirstFailure | crates/tunnel-core/src/state_machine.rs:440-486 | a Degraded tunnel is so since the first of its failed pings in a row, one or two, as many as it counts |
| LifecycleTheorems.ListenerStaysBound | crates/tunnel-core/src/state_machine.rs:322-329 | once reported bound, the port stays bound to that address until a shutdown completes |
| LifecycleTheorems.BoundWasReported | crates/tunnel-core/src/state_machine.rs:322-329 | whatever the listener shows as bound was reported while acquiring it, in this attempt |
| LifecycleTheorems.ConnectingIsAnnounced | crates/tunnel-core/src/state_machine.rs:351-373 | connecting follows directly on the announcement of the jump chain or on a transient failure |
| LifecycleTheorems.HealthyCanBeReached | crates/tunnel-core/src/state_machine.rs:231-507 | for any number of hops some run leads from a fresh machine to Healthy in just the steps it takes, with the port bound if one is needed |
| LifecycleTheorems.JournalLinks | crates/tunnel-core/src/state_machine.rs:591-602 | journal entries of a run link up, their generations never decrease, and the newest shows the current phase and generation |
| HealthLoop.WorkerCountsTheStreak | crates/tunnel-core/src/local_forward.rs:174-187 | a worker gives up exactly when three pings in a row have failed; until then its counter is the length of the current streak |
| HealthLoop.WorkerSimulatesReducer | crates/tunnel-core/src/remote_forward.rs:125-138 | for every sequence of ping results the workers' loop and the reducer agree at each step and give up together |
| ListenerRuntimeModule.ListenerRuntime.StartListener | crates/tunnel-core/src/runtime.rs:53-98 | binding drives the reducer to a bound listener or to the recorded failure; the port is held exactly when the state says Bound |
| ListenerRuntimeModule.ListenerRuntime.Stop | crates/tunnel-core/src/runtime.rs:100-119 | a successful stop releases the listener and ends Stopped and Unbound; it fails only at the last generation |
| ListenerRuntimeModule.ListenerRuntime.RecordBindFailure | crates/tunnel-core/src/runtime.rs:121-141 | each failure of binding is shown with its own reason; address in use becomes Conflict, and only an unclassified failure schedules a reconnect |
| Validation.ValidateAcceptsExactly | crates/tunnel-domain/src/validation.rs:41-111 | validation accepts exactly the startable tunnels |
| Validation.ChainErrorIsTrue | crates/tunnel-domain/src/validation.rs:52-70 | each complaint about the jump chain names a hop that really is repeated, missing or ambiguous |
| Validation.ComplaintIsTrue | crates/tunnel-domain/src/validation.rs:41-111 | every complaint, of any kind, is true of the tunnel |
| Validation.ValidatedChainResolves | crates/tunnel-core/src/manager.rs:549-576 | a validated tunnel's whole chain resolves to the hosts it names, so starting never meets an unknown host |
| Retry.DelayIsExact | crates/tunnel-core/src/retry.rs:17-29 | for every representable policy, attempt and jitter byte no intermediate product saturates, and the delay is the exact percentage of min(base * multiplier, max), the jitter cut to the configured percentage |
| Retry.DelaySchedule | crates/tunnel-core/src/retry.rs:17-29 | without jitter the delays are 1, 2, 5, 10, 20 times the base and then always 30 times, each up to the maximum |
| Retry.DelayWithinJitter | crates/tunnel-core/src/retry.rs:17-37 | each delay lies within the configured percentage of min(base * multiplier, max), up to the 64-bit cap |
| Retry.DelayNeverShrinks | crates/tunnel-core/src/retry.rs:17-29 | unjittered delays never decrease with the attempt number and never exceed the maximum |
| Manager.NewManager | crates/tunnel-core/src/manager.rs:216-288 | a manager is made exactly for at most 1024 tunnels with distinct ids, all Stopped, and it will start just those marked for it |
| Manager.SameHops | crates/tunnel-core/src/manager.rs:922-937 | host comparisons along a chain agree exactly when the captured hops are equal |
| Manager.RestartExactlyWhenPlanChanges | crates/tunnel-core/src/manager.rs:490-512 | a running tunnel is restarted exactly when it disappeared or its connection plan changed |
| Manager.StopInstallStart | crates/tunnel-core/src/manager.rs:490-540 | stopping what is outdated, adopting views and starting what should run has the stated effect on tasks and views: what can surely start runs |
| Manager.TunnelManager.Start | crates/tunnel-core/src/manager.rs:542-729 | an idle tunnel gets exactly one new task with the current plan, or a view that says why not; running and unknown ones are left alone |
| Manager.TunnelManager.Prepare | crates/tunnel-core/src/manager.rs:549-600 | only startable tunnels get a plan, which is the configuration's, and a listener exactly unless they are remote |
| Manager.TunnelManager.Stop | crates/tunnel-core/src/manager.rs:731-740 | the task is cancelled and joined, and the view is Stopped |
| Manager.TunnelManager.Refresh | crates/tunnel-core/src/manager.rs:742-789 | published states are taken over for running tunnels only; finished tasks are joined and shown as blocked |
| Manager.TunnelManager.ReplaceConfig | crates/tunnel-core/src/manager.rs:490-540 | unchanged running tunnels keep the very same task and view; every changed one is joined before it is started anew; ids of views and tunnels agree |
| Manager.TunnelManager.StartInstalled | crates/tunnel-core/src/manager.rs:520-540 | once the outdated tasks are gone and the views adopted, starting what ran and what starts by itself completes the replacement |
| Manager.TunnelManager.Dispatch | crates/tunnel-core/src/manager.rs:320-392 | each command has its effect on the tasks and views of the tunnels it names, and none on the others: startable remote tunnels run, others run or say why not; the configuration changes only through a persisted save, to just what was saved |
| Manager.TunnelManager.Run | crates/tunnel-core/src/manager.rs:302-407 | the tunnels marked for it are started, then each input has its effect, up to the one that ends the run; throughout, active plans equal the current configuration's and active ids are tunnel ids are view ids; shutdown leaves no task |
| Manager.TunnelManager.StartAutomatically | crates/tunnel-core/src/manager.rs:303-309 | the tunnels marked for it are started in order, each then running or blocked, unless shutdown comes first |
| Manager.TunnelManager.JoinAll | crates/tunnel-core/src/manager.rs:393-407 | every task is cancelled before any is joined, and none is left |
| TaskLedger.TasksAreConserved | crates/tunnel-core/src/manager.rs:731-789 | each task is spawned once and is then either active under one tunnel or joined once, never both, never neither |
| TaskLedger.OneTaskPerTunnel | crates/tunnel-core/src/manager.rs:542-548 | between two spawns for a tunnel the first task was joined |
| TaskLedger.JoinedTaskWasCancelled | crates/tunnel-core/src/manager.rs:731-740 | a task that did not end by itself was cancelled before it was joined |
| TaskLedger.HaltedStaysHalted | crates/tunnel-core/src/manager.rs:791-803 | after a stop no task is spawned and no other view shown until start is called again |
| LocalSupervisor.LocalForwardSupervisor.Run | crates/tunnel-core/src/supervisor.rs:130-144 | every task run is accepted by the protocol and announces one attempt in each round, and one that finished has published Stopped with nothing left; a task cancelled before it starts finishes in its first round |
| LocalSupervisor.LocalForwardSupervisor.RunUntilStopped | crates/tunnel-core/src/supervisor.rs:146-246 | the retry loop leaves with the listener back in the supervisor's hands |
| LocalSupervisor.LocalForwardSupervisor.Attempt | crates/tunnel-core/src/supervisor.rs:151-246 | one attempt dials, checks, serves or fails as the protocol allows, its first ping failing once the task is cancelled, and carries the attempt number the policy calls for |
| LocalSupervisor.LocalForwardSupervisor.ServeSession | crates/tunnel-core/src/supervisor.rs:187-230 | every served session shows Healthy, whether or not it was cancelled meanwhile, and returns the listener |
| LocalSupervisor.LocalForwardSupervisor.AfterFailure | crates/tunnel-core/src/supervisor.rs:248-278 | a permanent failure is published as Blocked, any other as Reconnecting with its attempt and a delay inside the jitter bounds; it is waited out unless cancelled |
| LocalSupervisor.LocalForwardSupervisor.WhileUnhealthy | crates/tunnel-core/src/supervisor.rs:280-304 | while there is no session clients are taken and joined, never beyond the limit |
| LocalSupervisor.LocalForwardWorker.Run | crates/tunnel-core/src/local_forward.rs:154-220 | a session ends on cancellation, by a closed session or listener, or exactly at the third consecutive failed ping; every health change has then been published, but for a ping cut off or overtaken by cancellation |
| LocalSupervisor.LocalForwardWorker.ReleaseListener | crates/tunnel-core/src/local_forward.rs:231-248 | connections are joined, the chain is closed, and the listener is handed back bound |
| LocalProtocol.AlwaysSound | crates/tunnel-core/src/supervisor.rs:130-304 | at every point of every run supervisor or worker alone owns the one listener, and relayed connections exist only during a session |
| LocalProtocol.NothingNewAfterCancel | crates/tunnel-core/src/supervisor.rs:151-304 | after cancellation no attempt, client, connection or retry begins |
| LocalProtocol.CancelledRunBound | crates/tunnel-core/src/supervisor.rs:130-337 | after cancellation a run ends within ten own actions plus the clients and connections still to be joined |
| LocalProtocol.CancelledCanMove | crates/tunnel-core/src/supervisor.rs:130-337 | a cancelled task that is not done always has an action of its own left |
| LocalProtocol.CancelledRunFinishes | crates/tunnel-core/src/supervisor.rs:130-337 | from wherever it is, a cancelled task reaches the end within its bound |
| LocalProtocol.StoppedIsLast | crates/tunnel-core/src/supervisor.rs:130-144 | Stopped is the last publication, immediately after the listener was closed, with nothing left running |
| LocalProtocol.ListenerClosedOnce | crates/tunnel-core/src/runtime.rs:100-119 | the listener is closed once, and only Stopped follows |
| LocalProtocol.ChainsAreClosed | crates/tunnel-core/src/local_forward.rs:231-248 | every chain that was opened is closed exactly once |
| LocalProtocol.AttemptsCountUp | crates/tunnel-core/src/supervisor.rs:151-246 | from one announced attempt to the next the number grows by one, or falls to 1 exactly after a session that lasted long enough |
| LocalProtocol.PublishedDelayFits | crates/tunnel-core/src/supervisor.rs:248-278 | every published delay fits the attempt it names |
| LocalProtocol.BlockedExactlyWhenRefused | crates/tunnel-core/src/supervisor.rs:158-246 | in every run, of the failures shown exactly those are Blocked whose attempt ended with a permanently refused dial; a failed first ping or an ended session never is |
| LocalProtocol.EveryRoundDials | crates/tunnel-core/src/supervisor.rs:151-173 | between two announced attempts the connector has answered |
| LocalProtocol.OneHealthValueAfterCancel | crates/tunnel-core/src/local_forward.rs:174-187 | after cancellation at most one more health value is published |
| LocalProtocol.DelaysNeverShrink | crates/tunnel-core/src/supervisor.rs:248-278 | of two published retries with no long session between them, the later has neither a smaller attempt number nor a smaller unjittered delay |
| LocalProtocol.HealthyAfterCancelExactlyWhen | crates/tunnel-core/src/supervisor.rs:174-226 | after cancellation some continuation shows Healthy if and only if a ping had succeeded before and that has not been shown yet |
| LocalProtocol.HealthyAfterCancelHappens | crates/tunnel-core/src/supervisor.rs:203-226 | a run in which Stop comes between a good ping and its relaying, and Healthy is shown nevertheless |
| RemoteSession.DirectSshSession.RequestRemoteForward | crates/ssh-engine/src/client.rs:558-600 | registration succeeds exactly under the stated conditions and then opens the gate at the granted port; a failure changes nothing and names its cause |
| RemoteSession.DirectSshSession.CancelRemoteForward | crates/ssh-engine/src/client.rs:602-624 | the gate is closed before the server is asked; a failed request keeps the registration for another try |
| RemoteSession.DirectSshSession.Disconnect | crates/ssh-engine/src/client.rs:673-706 | after disconnecting, or dropping, the gate is closed |
| RemoteSession.DirectSshSession.OfferChannel | crates/ssh-engine/src/host_key.rs:99-129 | a channel is accepted exactly at the registered address and port while there is room in the queue |
| RemoteSupervisor.RemoteForwardSupervisor.Run | crates/tunnel-core/src/remote_supervisor.rs:58-181 | every task run is accepted by the protocol and announces one attempt in each round, and one that finished has published Stopped; a task cancelled before it starts finishes in its first round |
| RemoteSupervisor.RemoteForwardSupervisor.UseSession | crates/tunnel-core/src/remote_supervisor.rs:95-163 | whatever happens on a chain, it is closed on return with its gate shut; if a worker ran, Healthy was shown, cancelled or not |
| RemoteSupervisor.RemoteForwardSupervisor.AfterFailure | crates/tunnel-core/src/remote_supervisor.rs:183-207 | a permanent failure is published as Blocked, any other as Reconnecting with its attempt and a delay inside the jitter bounds; it is waited out unless cancelled |
| RemoteSupervisor.RemoteForwardWorker.Run | crates/tunnel-core/src/remote_forward.rs:111-166 | a session ends by cancellation, by a closed session or channel queue, or exactly at the third consecutive failed ping, every health change having been published |
| RemoteSupervisor.RemoteForwardWorker.Stop | crates/tunnel-core/src/remote_forward.rs:168-195 | the registration is given back while the session is up, then connections are joined, then the session is disconnected |
| RemoteProtocol.AlwaysSound | crates/tunnel-core/src/remote_supervisor.rs:58-207 | the joint invariant of token, gate, connections and phase at every point of every run |
| RemoteProtocol.TokensAreCancelled | crates/tunnel-core/src/remote_supervisor.rs:63-181 | every session token but the live one has been cancelled exactly once |
| RemoteProtocol.TokenCancelledBeforeNext | crates/tunnel-core/src/remote_supervisor.rs:63-181 | before the next attempt and before the task returns the previous token has been cancelled |
| RemoteProtocol.RegistrationIsCancelledFirst | crates/tunnel-core/src/remote_forward.rs:168-195 | each registration gets its cancel request before its session is closed, its token cancelled, another is made or the task ends |
| RemoteProtocol.ChannelsNeedRegistration | crates/ssh-engine/src/host_key.rs:99-129 | each accepted channel has a standing registration at its address and port |
| RemoteProtocol.CancelledRunBound | crates/tunnel-core/src/remote_supervisor.rs:58-207 | after cancellation a run ends within nine own actions plus the connections to be joined |
| RemoteProtocol.CancelledCanMove | crates/tunnel-core/src/remote_supervisor.rs:58-207 | a cancelled task that is not done always has an action of its own left |
| RemoteProtocol.CancelledRunFinishes | crates/tunnel-core/src/remote_supervisor.rs:58-207 | from wherever it is, a cancelled task reaches the end within its bound |
| RemoteProtocol.NothingNewAfterCancel | crates/tunnel-core/src/remote_supervisor.rs:63-207 | after cancellation no attempt, connection or retry begins |
| RemoteProtocol.StoppedIsLast | crates/tunnel-core/src/remote_supervisor.rs:58-181 | Stopped comes last, with no registration, token or connection left |
| RemoteProtocol.AttemptsCountUp | crates/tunnel-core/src/remote_supervisor.rs:63-181 | attempt numbers grow by one or fall to 1 exactly after a long session |
| RemoteProtocol.PublishedDelayFits | crates/tunnel-core/src/remote_supervisor.rs:183-207 | every published delay fits the attempt it names |
| RemoteProtocol.BlockedExactlyWhenRefused | crates/tunnel-core/src/remote_supervisor.rs:80-181 | in every run, of the failures shown exactly those are Blocked whose attempt ended with a permanently refused dial or registration |
| RemoteProtocol.EveryRoundDials | crates/tunnel-core/src/remote_supervisor.rs:63-94 | between two announced attempts the connector has answered |
| RemoteProtocol.DelaysNeverShrink | crates/tunnel-core/src/remote_supervisor.rs:183-207 | of two published retries with no long session between them, the later has neither a smaller attempt number nor a smaller unjittered delay |
| RemoteProtocol.HealthyAfterCancelHappens | crates/tunnel-core/src/remote_supervisor.rs:95-132 | a run in which Healthy is published after cancellation: the first ping and the registration are not raced against it |
| RemoteProtocol.HealthyAfterCancelExactlyWhen | crates/tunnel-core/src/remote_supervisor.rs:95-150 | after cancellation some continuation shows Healthy if and only if a chain is open that has not been found faulty and its first Healthy is still to be shown |
| RemoteProtocol.OneHealthValueAfterCancel | crates/tunnel-core/src/remote_supervisor.rs:131-160 | after cancellation at most one Healthy is published |
| RemoteProtocol.NoDegradedAfterCancel | crates/tunnel-core/src/remote_supervisor.rs:139-160 | after cancellation no Degraded is published, since a ping under way is dropped |
| Utf8.DecodeExact | crates/forwarding/src/socks5.rs:132-140 | decoding yields a text exactly for its UTF-8 encoding, so the host is never misread |
| Utf8.LengthIsByteLength | crates/tunnel-domain/src/validation.rs:88-111 | the length limit on hosts counts the bytes of the encoding |
| Socks5.AcceptsExactly | crates/forwarding/src/socks5.rs:86-159 | the parser accepts exactly the streams that begin with an encoding of a NO AUTH CONNECT to an IPv4, IPv6 or 1 to 255 byte UTF-8 destination with nonzero port, and uses up just those bytes |
| Socks5.RequestsAreUnambiguous | crates/forwarding/src/socks5.rs:86-159 | no stream can be read as two requests, however it continues |
| Socks5.FaultsAreTrue | crates/forwarding/src/socks5.rs:104-157 | every complaint is true of the bytes received; a stream that merely ends early is no fault |
| SocksConnection.Stream.ReadConnect | crates/forwarding/src/socks5.rs:86-159 | what the parser returns, leaves unread and sends is a function of the client's bytes and of where writing fails, whatever the pieces it is written in |
| SocksConnection.Stream.WriteAll | crates/forwarding/src/socks5.rs:161-169 | all bytes are sent, or exactly those that fit before the failure |
| SocksConnection.HandleConnection | crates/tunnel-core/src/local_forward.rs:251-306 | the destination requested is the client's; a proper request hears twelve bytes that depend on how the channel opened, byte by byte; a relay starts exactly for an open channel, an uncancelled task and a delivered Succeeded, and then request and unread bytes make up the client's stream |
| SocksConnection.RejectUnhealthy | crates/tunnel-core/src/supervisor.rs:306-323 | without a session a proper request hears 5 0 5 4 0 1 and six zeros, HostUnreachable, and nothing is relayed |
| SocksConnection.ImproperRequestHears | crates/forwarding/src/socks5.rs:86-159 | each kind of improper request hears its own refusal, byte by byte |
| SocksConnection.AtMostOneReply | crates/tunnel-core/src/local_forward.rs:275-304 | across parser and handler a client hears at most one ten-byte reply |
| SocksConnection.SucceededMeansOpened | crates/tunnel-core/src/local_forward.rs:251-342 | a client hears the bytes of Succeeded if and only if it asked properly, the channel opened and the task was not cancelled |
| Relay.CopyDirection | crates/forwarding/src/relay.rs:65-103 | at every stopping point the bytes written are a prefix of the bytes read, at most 16 KiB behind, and the counter has grown by as much; finishing means everything delivered and one shutdown; a direction gives up only when cancelled or when the other has failed |
| Relay.AlwaysFaithful | crates/forwarding/src/relay.rs:65-103 | the same at every single step of a direction, for every chunking, partial write and failure |
| Relay.DirectionsAreIndependent | crates/forwarding/src/relay.rs:54-63 | an interleaving of both directions can happen exactly when each can happen by itself and nothing follows a failure, and it takes each direction where its own steps take it |
| Relay.BothStayFaithful | crates/forwarding/src/relay.rs:54-63 | at every point of every interleaving both directions are faithful, with at most one shutdown each |
| Relay.OtherGoesOn | crates/forwarding/src/relay.rs:78-85 | after one direction has ended cleanly, with its one shutdown, the other can still do whatever it could |
| Relay.PassOn | crates/forwarding/src/relay.rs:87-101 | a chunk is written in any number of partial writes; a write of nothing is an error |
| Relay.RelayBidirectional | crates/forwarding/src/relay.rs:44-63 | without an error or cancellation both sides' bytes are delivered completely, each with its one shutdown; in any case what happened is a run of the join, each direction with its own counter, the relay fails with the one error that ended it, and the number of active connections is balanced |
| Chain.ConnectWithApproval | crates/ssh-engine/src/chain.rs:59-147 | success is one live session per hop, to that hop's host, each carried by its predecessor, the remote binding on the last only; failure at hop k means exactly k - 1 sessions opened and all closed newest first |
| Chain.CarrierOutlivesRider | crates/ssh-engine/src/chain.rs:181-185 | in every history no session closes while another rides on it |
| Chain.SshChain.DisconnectAll | crates/ssh-engine/src/chain.rs:181-185 | all sessions are closed in strict reverse order |
| Chain.SshChain.PingAll | crates/ssh-engine/src/chain.rs:161-174 | all round-trip times in hop order, or the first hop that failed |
| Schema.IntoDomain | crates/config-store/src/schema.rs:172-244 | the loops with their id sets compute the conversion, the first error winning; what is accepted is carried over item by item and field by field |
| Schema.AcceptedIsRead | crates/config-store/src/schema.rs:243-359 | each host, group and tunnel of an accepted document has every value of its record: durations from milliseconds, key paths with the home directory, authentication by its type |
| Schema.WrittenIsCarried | crates/config-store/src/schema.rs:374-481 | each record written has every value of its host, group or tunnel, durations in whole milliseconds and paths as they are |
| Schema.ErrorsAreTrue | crates/config-store/src/schema.rs:172-359 | every refusal names something that is wrong with the document, and another version is noticed first |
| Schema.ConvertsExactly | crates/config-store/src/schema.rs:190-238 | a list converts exactly when its ids differ and every record does, and then record by record |
| Schema.AcceptsExactly | crates/config-store/src/schema.rs:172-244 | a document is accepted exactly when nothing in it is unusable, repeated, too much or of another version |
| Schema.AcceptedIsRunnable | crates/config-store/src/schema.rs:190-244 | accepted ids are unique, and every accepted tunnel passes validation with its whole jump chain configured |
| Schema.RoundTrip | crates/config-store/src/schema.rs:374-403 | an accepted document written back is accepted again with the same domain |
| Schema.RoundTripsExactlyWhen | crates/config-store/src/schema.rs:361-372 | reading and writing agree on every document exactly when the home directory is stable: none, a plain ~, or non-empty and not beginning with ~ |
| Schema.UnstableHomeLosesKeys | crates/config-store/src/schema.rs:361-372 | under any other home a document whose key path comes back different |
| Schema.WritesExactly | crates/config-store/src/schema.rs:405-481 | a domain can be written exactly when all its durations fit in 64-bit milliseconds |
| Schema.AddedHostIsSavedExactlyWhen | crates/config-store/src/store.rs:107-109 | a configuration that saves still does with one more host exactly when there is room, the id is new and the host itself can be written and read |
| SshInclude.ReadingIsBounded | crates/config-store/src/ssh_import.rs:240-308 | on every include graph, cycles included, reading ends, reads each canonical file at most once, at most 32 files and 2 MiB |
| SshInclude.ReadExpands | crates/config-store/src/ssh_import.rs:240-308 | without errors, repeats or exceeded limits reading equals plain inline depth-first expansion, without a warning |
| SshInclude.SilenceMeansComplete | crates/config-store/src/ssh_import.rs:240-308 | a reading without a warning has missed nothing: whatever any file read includes was read too, on every include graph, up to the first 33 matches of a word |
| SshInclude.Importer.ReadLines | crates/config-store/src/ssh_import.rs:240-308 | the recursive reader with its counters, visited set and capped warnings computes that reading |
| SshWords.SplitWords | crates/config-store/src/ssh_import.rs:317-355 | the scanning loop computes the words of a line |
| SshWords.QuotingRoundTrips | crates/config-store/src/ssh_import.rs:317-355 | quoted words are read back word for word, exactly when the first has no equals sign and the second is not one |
| SshWords.AssignmentSpellings | crates/config-store/src/ssh_import.rs:345-353 | Key=Value, Key = Value and Key Value mean the same |
| SshWords.EmptyValue | crates/config-store/src/ssh_import.rs:345-353 | a key with nothing behind its equals sign has an empty value |
| SshWords.LinesRoundTrip | crates/config-store/src/ssh_import.rs:262-263 | lines are read back in number, order and content, whether a newline or a carriage return and a newline ends them, and whether or not the last is ended |
| SshWords.CommentsAreIgnored | crates/config-store/src/ssh_import.rs:317-355 | a number sign between words ends the line, whatever comes after it |
| SshResolve.MatchesAlias | crates/config-store/src/ssh_import.rs:224-238 | a block matches exactly when some positive and no negated pattern does |
| SshResolve.ExclamationMarkExcludes | crates/config-store/src/ssh_import.rs:224-238 | patterns behind an exclamation mark exclude what they match, all others select |
| SshResolve.PatternOrderIsIrrelevant | crates/config-store/src/ssh_import.rs:224-238 | whatever the order or number of its patterns |
| SshResolve.ResolveOptions | crates/config-store/src/ssh_import.rs:119-144 | the nested loops over blocks and values keep the first value of every recognised option |
| SshResolve.ResolveAlias | crates/config-store/src/ssh_import.rs:66-144 | an option has a value exactly when it is recognised and some line in scope sets it, and then that of the first such line of the file |
| SshResolve.BlocksAreFaithful | crates/config-store/src/ssh_import.rs:74-110 | grouping into blocks gives an alias just the values the lines give it |
| SshResolve.MatchContributesNothing | crates/config-store/src/ssh_import.rs:100-105 | nothing between a Match line and the next Host line reaches any alias |
| SshResolve.WrittenReadsBack | crates/config-store/src/ssh_import.rs:74-110 | each kind of line, written down, is read back as what it is |
| SshResolve.MatchIsRecognised | crates/config-store/src/ssh_import.rs:100-105 | a line with the keyword Match, in any spelling and with anything behind it, is a Match line |
| SshResolve.AliasesAreNamed | crates/config-store/src/ssh_import.rs:81-99 | the aliases are the explicit patterns of Host lines, each once, all of them unless there are 512 |
| SshImport.PreviewSshConfig | crates/config-store/src/ssh_import.rs:66-222 | the preview resolves every alias over the lines of all included files into its eleven options, its host and its proxy jump |
| SshImport.OptionsAreRead | crates/config-store/src/ssh_import.rs:145-207 | every field of an imported host comes from its own option, cut to its bounds, or is the default if the option is missing or unreadable |
| SshImport.ImportedHostIsSavedExactlyWhen | crates/config-store/src/ssh_import.rs:145-207 | an imported host has its numbers in range; it is written and accepted again if and only if its timeouts fit in 64-bit milliseconds, alias, hostname and user are not blank, and its key path can be expanded |
| SshImport.ImportIsSavedExactlyWhen | crates/config-store/src/store.rs:107-109 | added to a configuration that saves, the whole still does exactly under that condition, with room and a new id |
| SshImport.EmptyUserIsLost | crates/config-store/src/ssh_import.rs:150-154 | the line User= is read as an empty user, with which the host cannot be saved |
| SshImport.BlankHostnameIsLost | crates/config-store/src/ssh_import.rs:145-149 | a blank hostname cannot be saved |
| SshImport.BlankAliasIsLost | crates/config-store/src/ssh_import.rs:195-198 | a blank alias cannot be saved |
| SshImport.LongTimeoutIsLost | crates/config-store/src/ssh_import.rs:203-204 | neither timeout can be saved at the largest number of seconds |
| SshImport.HomelessKeyIsLost | crates/config-store/src/ssh_import.rs:178-185 | a key path that is still ~ after the import cannot be saved without a home directory |

## Left out

- Wall-clock time, scheduling fairness and memory ordering: deadlines are arbitrary outcomes, counters and flags change atomically.
- Chain.CarrierOutlivesRider: does not model dropping; a connection attempt that is dropped on Stop frees its sessions oldest first; and Stop of a local or dynamic tunnel cancels the transport of every session at once, through tokens derived from the task's, before `DisconnectAll`. Only explicit closing is ordered.
- Tasks aborted at the manager's stop deadline: such a task is dropped where it is, cancels no session token and publishes no Stopped; the task protocols describe tasks that run to their end.
- Latest-value channels drop intermediate values; here each published value is seen, and a worker's health reaches the supervisor's observers at once.
- The manager's log ring, host-key prompts and retry hints: none of them changes a tunnel's task, plan or view.
- Manager.TunnelManager.OpenListener: does not model that a bracketless IPv6 address fails to parse (crates/tunnel-core/src/manager.rs:587); text parsing is a parameter.
- Error texts, retryability tables and log messages: errors are datatypes, and whether a failure is permanent is an arbitrary choice.
- SSH transport, authentication, known-hosts files and agents.
- SocksConnection.HandleConnection: does not model the time limits on the handshake and on the refusal; running out of time is a stream that ends or a write that fails.
- SshImport.PreviewSshConfig: does not model the warnings about lines, aliases and options, which are only shown; nor the `~/` expansion of key and include paths, which is a parameter.
- SshImport.ImportIsSavedExactlyWhen: does not model the size limit on the configuration text and the file operations of saving; nor that saving writes TOML before it validates (crates/config-store/src/store.rs:107-109), whose integers are signed 64-bit, so that milliseconds from 2^63 on, which the condition allows up to 2^64 - 1, may be refused earlier.
- TOML text, file locking, backups and fsync of the configuration store, and the keyring.
- Import, export and preview commands of the manager, the graphical application, tray and Windows integration.
