/**
  The Local/Dynamic supervisor and its worker.  What the network, the clients, the clock and the user do
  is chosen freely by the environment (`*`); every action is recorded and checked against `LocalProtocol`.
*/
module LocalSupervisor {
  import opened Wrappers
  import opened Domain
  import opened SupervisorTypes
  import opened LocalProtocol
  import opened ListenerRuntimeModule
  import Retry
  import L = LifecycleTypes

  datatype SupervisorError = Accept | Shutdown(error: ListenerError)

  datatype WorkerExit = TokenCancelled | SessionClosed | HealthLost | WorkerAccept

  /** How waiting without a healthy session ends. */
  datatype Wake = FutureReady | Interrupted | ListenerBroken

  /** What can happen in one turn of a select loop, besides its cancellation. */
  datatype Turn = ClientDone | ClientArrives | ListenerFails | Quiet

  datatype WorkerTurn =
    | SessionTick(closed: bool) | HealthTick(ok: bool) | ConnDone | ConnArrives | AcceptBreaks | OpenRequest

  /** The cancellation token a task shares with the manager, and the ghost record of the task's actions. */
  class World {
    const policy: RetryPolicy
    var cancelled: bool
    ghost var trace: seq<Action>
    ghost var proto: Proto

    ghost predicate Valid()
      reads this
    {
      && Replay(policy, trace) == Some(proto)
      && Sound(proto)
      && cancelled == proto.cancelled
    }

    constructor (policy: RetryPolicy)
      ensures Valid() && !cancelled && trace == [] && proto == INITIAL && this.policy == policy
    {
      this.policy := policy;
      cancelled := false;
      trace := [];
      proto := INITIAL;
    }

    ghost method Note(a: Action)
      requires Valid() && !a.Cancelled? && Post(policy, proto, a).Some?
      modifies this`trace, this`proto
      ensures Valid() && trace == old(trace) + [a] && Some(proto) == Post(policy, old(proto), a)
    {
      assert (trace + [a])[..|trace|] == trace;
      PostKeepsSound(policy, proto, a);
      proto := Post(policy, proto, a).value;
      trace := trace + [a];
    }

    method Cancel()
      requires Valid() && !proto.phase.Done?
      modifies this
      ensures Valid() && cancelled && proto == old(proto).(cancelled := true)
      ensures trace == if old(cancelled) then old(trace) else old(trace) + [Cancelled]
    {
      if !cancelled {
        assert (trace + [Cancelled])[..|trace|] == trace;
        proto := proto.(cancelled := true);
        trace := trace + [Cancelled];
        cancelled := true;
      }
    }

    /** A point where the task may be suspended: the user may or may not press Stop meanwhile. */
    method Suspend()
      requires Valid() && !proto.phase.Done?
      modifies this
      ensures Valid() && (old(cancelled) ==> cancelled) && proto == old(proto).(cancelled := cancelled)
      ensures trace == if cancelled == old(cancelled) then old(trace) else old(trace) + [Cancelled]
    {
      var stop: bool := *;
      if stop {
        Cancel();
      }
    }
  }

  class LocalForwardWorker {
    const world: World
    const home: ListenerRuntime
    var listener: ListenerRuntime?
    var connections: nat

    ghost predicate Valid()
      reads this, world
    {
      && world.Valid()
      && (world.proto.owner.Worker? <==> listener == home)
      && (!world.proto.owner.Worker? ==> listener == null)
      && connections == world.proto.conns
    }

    constructor (world: World, listener: ListenerRuntime)
      requires world.Valid() && world.proto.phase.Ready?
      modifies world
      ensures Valid() && this.world == world && home == listener
      ensures world.proto == old(world.proto).(phase := Serving(0, Fresh), owner := Worker)
      ensures world.trace == old(world.trace) + [HandedOver]
    {
      this.world := world;
      this.home := listener;
      this.listener := listener;
      connections := 0;
      new;
      world.Note(HandedOver);
    }

    method Publish(state: SupervisorState)
      requires Valid() && Published(world.policy, world.proto, state).Some?
      modifies world
      ensures Valid() && Some(world.proto) == Published(world.policy, old(world.proto), state)
      ensures world.cancelled == old(world.cancelled) && world.trace == old(world.trace) + [Action.Publish(state)]
    {
      world.Note(Action.Publish(state));
    }

    /** Serves one session.  The supervisor relays each health value as it is sent. */
    method Run(turns: nat) returns (exit: WorkerExit)
      requires Valid() && world.proto.phase == Serving(0, Current)
      modifies this, world
      ensures Valid() && old(world.trace) <= world.trace && world.proto.phase.Serving? && world.proto.owner.Worker?
      ensures world.proto == old(world.proto).(phase := world.proto.phase, cancelled := world.cancelled,
                                               conns := connections)
      ensures exit.HealthLost? <==> world.proto.phase.failures == L.PING_FAILURE_LIMIT
      ensures exit.SessionClosed? || exit.WorkerAccept? ==> world.proto.phase.told == Current
      ensures exit.TokenCancelled? ==> world.cancelled
      ensures !world.proto.phase.told.Fresh?
    {
      var pingFailures: nat := 0;
      var n := turns;
      while n > 0
        invariant Valid() && old(world.trace) <= world.trace && world.proto.phase == Serving(pingFailures, Current)
        invariant pingFailures < L.PING_FAILURE_LIMIT
        invariant world.proto == old(world.proto).(phase := world.proto.phase, cancelled := world.cancelled,
                                                   conns := connections)
      {
        n := n - 1;
        world.Suspend();
        if world.cancelled {
          return TokenCancelled;
        }
        var turn: WorkerTurn := *;
        match turn {
          case SessionTick(closed) =>
            if closed {
              return SessionClosed;
            }
          case HealthTick(ok) =>
            var ended: Option<WorkerExit>;
            ended, pingFailures := Ping(ok, pingFailures);
            if ended.Some? {
              return ended.value;
            }
          case AcceptBreaks =>
            if connections < MAX_CLIENTS {
              return WorkerAccept;
            }
          case _ => Relay(turn);
        }
      }
      // every longer session is covered by a larger `turns`; here the session is found closed
      exit := SessionClosed;
    }

    /**
      One ping, None if the session goes on.  Cancellation cuts it off, and the worker then returns with the value it
      sends; a value sent before may or may not be relayed when cancellation follows at once.
    */
    method Ping(ok: bool, failures: nat) returns (exit: Option<WorkerExit>, pingFailures: nat)
      requires Valid() && world.proto.phase == Serving(failures, Current) && !world.cancelled
      requires failures < L.PING_FAILURE_LIMIT
      modifies world
      ensures Valid() && old(world.trace) <= world.trace
      ensures world.proto == old(world.proto).(phase := world.proto.phase, cancelled := world.cancelled)
      ensures world.proto.phase.Serving? && world.proto.phase.failures == pingFailures && !world.proto.phase.told.Fresh?
      ensures exit.None? ==> world.proto.phase.told.Current? && pingFailures < L.PING_FAILURE_LIMIT
      ensures pingFailures == 0 || pingFailures == failures + 1
      ensures !ok ==> pingFailures == failures + 1
      ensures ok && !world.cancelled ==> pingFailures == 0 && exit.None?
      ensures exit.Some? ==>
        && (exit.value.HealthLost? <==> pingFailures == L.PING_FAILURE_LIMIT)
        && (exit.value.HealthLost? || (exit.value.TokenCancelled? && world.cancelled))
    {
      world.Suspend();
      var answered := ok && !world.cancelled;
      var cutOff := world.cancelled;
      world.Note(HealthPing(answered));
      pingFailures := if answered then 0 else Min(failures + 1, L.U8_MAX);
      if pingFailures >= L.PING_FAILURE_LIMIT {
        return Some(HealthLost), pingFailures;
      }
      world.Suspend();
      var overtaken: bool := *;
      if cutOff || (world.cancelled && overtaken) {
        return Some(TokenCancelled), pingFailures;
      }
      Report(pingFailures);
      exit := None;
    }

    method Report(pingFailures: nat)
      requires Valid() && world.proto.phase == Serving(pingFailures, Pending) && pingFailures < L.PING_FAILURE_LIMIT
      modifies world
      ensures Valid() && old(world.trace) <= world.trace && world.cancelled == old(world.cancelled)
      ensures world.proto == old(world.proto).(phase := Serving(pingFailures, Current))
    {
      if pingFailures == 0 {
        var rtts: seq<nat> := *;
        Publish(Healthy(rtts, None));
      } else {
        var message: string := *;
        Publish(Degraded(pingFailures, Failure(message)));
      }
    }

    /** Opening a channel for a connection changes no hands here; it is answered with a channel or an error. */
    method Relay(turn: WorkerTurn)
      requires Valid() && world.proto.phase.Serving? && world.proto.phase.told == Current && !world.cancelled
      modifies this`connections, world
      ensures Valid() && old(world.trace) <= world.trace && world.proto == old(world.proto).(conns := connections)
    {
      if turn.ConnDone? && connections > 0 {
        JoinConnection();
      } else if turn.ConnArrives? && connections < MAX_CLIENTS {
        world.Note(ConnTaken);
        connections := connections + 1;
      }
    }

    method JoinConnection()
      requires Valid() && connections > 0
      modifies this`connections, world
      ensures Valid() && connections == old(connections) - 1 && old(world.trace) <= world.trace
      ensures world.proto == old(world.proto).(conns := connections)
    {
      world.Note(ConnJoined);
      connections := connections - 1;
    }

    /** Joins every connection, disconnects the chain, and only then gives the listener back. */
    method ReleaseListener() returns (released: ListenerRuntime)
      requires Valid() && world.proto.phase == Draining(true)
      modifies this, world
      ensures world.Valid() && released == home && listener == null && connections == 0
      ensures old(world.trace) <= world.trace
      ensures world.proto == old(world.proto).(phase := Failed(false), owner := Supervisor, conns := 0,
                                               cancelled := world.cancelled)
    {
      while connections > 0
        invariant Valid() && old(world.trace) <= world.trace
        invariant world.proto == old(world.proto).(conns := connections)
      {
        JoinConnection();
      }
      world.Suspend();
      world.Note(ChainClosed);
      released := listener;
      world.Note(HandedBack);
      listener := null;
    }
  }

  class LocalForwardSupervisor {
    const world: World
    const home: ListenerRuntime
    const dynamic: bool
    var listener: ListenerRuntime?
    var unhealthyClients: nat

    /** The one listener is held here exactly when the protocol says the supervisor owns it. */
    ghost predicate Valid()
      reads this, world
    {
      && world.Valid() && Retry.Representable(world.policy)
      && (world.proto.owner.Supervisor? <==> listener == home)
      && (!world.proto.owner.Supervisor? ==> listener == null)
      && unhealthyClients == world.proto.clients
    }

    constructor (listener: ListenerRuntime, dynamic: bool, world: World)
      requires world.Valid() && world.proto == INITIAL.(cancelled := world.cancelled)
      requires Retry.Representable(world.policy)
      ensures Valid() && this.world == world && home == listener
    {
      this.world := world;
      this.home := listener;
      this.listener := listener;
      this.dynamic := dynamic;
      unhealthyClients := 0;
    }

    /**
      One whole task, cut off after `rounds` turns of the retry loop if it is still running then.  When it
      finishes, the listener has been stopped and nothing is left of it; Stopped was published last.
    */
    method Run(rounds: nat) returns (finished: bool, r: Result<(), SupervisorError>)
      requires Valid() && world.proto == INITIAL.(cancelled := world.cancelled)
      requires home.Valid() && home.listener.Some?
      modifies this, world, home, home.machine
      ensures Valid() && home.Valid()
      ensures old(world.cancelled) && rounds > 0 ==> finished
      ensures !finished ==> world.proto.phase.Idle? && listener == home && home.listener == old(home.listener)
      // every turn has announced an attempt
      ensures !finished ==> Attempts(world.trace) == rounds
      ensures finished ==> world.proto.phase.Done? && listener == null && unhealthyClients == 0
      ensures finished && r.Ok? ==> home.listener.None? && home.machine.state.runtime.Stopped?
    {
      var exit := RunUntilStopped(rounds);
      if exit.None? {
        AnnouncementsAreCounted(world.policy, world.trace);
        return false, Ok(());
      }
      world.Cancel();
      ShutdownUnhealthyClients();
      var stopped := CloseListener();
      world.Note(Action.Publish(Stopped));
      finished := true;
      r := if exit.value.Err? then exit.value else if stopped.Err? then Err(Shutdown(stopped.error)) else Ok(());
    }

    method CloseListener() returns (stopped: Result<(), ListenerError>)
      requires Valid() && listener == home && home.Valid()
      requires world.proto.phase.Leaving? && world.cancelled && unhealthyClients == 0
      modifies this`listener, world, home, home.machine
      ensures Valid() && home.Valid() && listener == null && world.proto.phase.Released?
      ensures stopped.Ok? ==> home.listener.None? && home.machine.state.runtime.Stopped?
    {
      stopped := listener.Stop(0);
      world.Note(ListenerClosed);
      listener := null;   // dropped here even if the machine refused to stop
    }

    /** None when cut off; otherwise the result of the loop. */
    method RunUntilStopped(rounds: nat) returns (exit: Option<Result<(), SupervisorError>>)
      requires Valid() && world.proto == INITIAL.(cancelled := world.cancelled)
      modifies this, world
      ensures Valid() && listener == home
      ensures old(world.cancelled) && rounds > 0 ==> exit.Some?
      ensures exit.None? ==> world.proto.phase.Idle? && world.proto.announced == rounds
      ensures exit.Some? ==> world.proto.phase.Leaving?
    {
      var attempt: nat := 1;
      var n := 0;
      while n < rounds
        invariant n <= rounds && world.proto.announced == n
        invariant Valid() && world.proto.phase.Idle? && world.proto.attempt == attempt && listener == home
        invariant old(world.cancelled) ==> n == 0 && world.cancelled
      {
        n := n + 1;
        world.Suspend();
        if world.cancelled {
          world.Note(LoopLeft);
          return Some(Ok(()));
        }
        world.Note(Action.Publish(Connecting(attempt)));
        var wake := WhileUnhealthy(true);
        if wake.FutureReady? {
          attempt, wake := Attempt(attempt);
        }
        match wake {
          case ListenerBroken => return Some(Err(Accept));
          case Interrupted => return Some(Ok(()));
          case FutureReady => world.Note(Waited);
        }
      }
      return None;
    }

    /** The connector has answered: ping, serve or fail, then wait.  Returns the next attempt number. */
    method Attempt(attempt: nat) returns (next: nat, wake: Wake)
      requires Valid() && world.proto.phase.Dialing? && !world.cancelled
      requires world.proto.attempt == attempt && listener == home
      modifies this, world
      ensures Valid() && listener == home
      ensures wake.FutureReady? ==>
        && world.proto.phase.Waiting? && world.proto.next == next && !world.cancelled
        && world.proto.announced == old(world.proto.announced)
      ensures !wake.FutureReady? ==> world.proto.phase.Leaving?
    {
      var dialed: DialResult, pinged: bool := *, *;
      world.Note(DialEnded(dialed));
      if !dialed.ChainUp? {
        wake := AfterFailure(attempt, dialed.Refused?);
        return Min(attempt + 1, L.U32_MAX), wake;
      }
      world.Suspend();
      pinged := pinged && !world.cancelled;   // a cancelled session answers no ping
      world.Note(FirstPing(pinged));
      if !pinged {
        world.Suspend();
        world.Note(ChainClosed);
        wake := AfterFailure(attempt, false);
        return Min(attempt + 1, L.U32_MAX), wake;
      }
      next := ServeSession(attempt);
      if world.cancelled {
        world.Note(LoopLeft);
        return next, Interrupted;
      }
      wake := AfterFailure(next, false);
    }

    /** Hands the listener to a worker for one session and takes it back; returns the next attempt number. */
    method ServeSession(attempt: nat) returns (next: nat)
      requires Valid() && world.proto.phase.Ready? && world.proto.attempt == attempt
      modifies this, world
      ensures Valid() && world.proto.phase == Failed(false) && listener == home
      ensures world.proto.attempt == next == world.proto.next && world.proto.announced == old(world.proto.announced)
      // Healthy is shown, whether or not Stop came meanwhile
      ensures exists k :: |old(world.trace)| <= k < |world.trace| && ShowsHealthy(world.trace[k])
    {
      var worker := new LocalForwardWorker(world, home);
      listener := null;
      var rtts: seq<nat>, turns: nat, lifetime: nat := *, *, *;
      worker.Publish(Healthy(rtts, None));
      ghost var k := |world.trace| - 1;
      var exit := worker.Run(turns);
      world.Note(WorkerEnded(lifetime));
      listener := worker.ReleaseListener();
      assert ShowsHealthy(world.trace[k]);
      next := if Retry.ShouldReset(world.policy, lifetime) then 1 else Min(attempt + 1, L.U32_MAX);
    }

    method AfterFailure(attempt: nat, permanent: bool) returns (wake: Wake)
      requires Valid() && world.proto.phase == Failed(permanent) && world.proto.attempt == attempt && listener == home
      modifies this, world
      ensures Valid() && listener == home
      ensures |old(world.trace)| < |world.trace| && old(world.trace) <= world.trace
      ensures var shown := world.trace[|old(world.trace)|];
              && shown.Publish?
              && if permanent then shown.state.Blocked? else shown.state.Reconnecting? && shown.state.attempt == attempt
      ensures wake.FutureReady? ==>
        !world.cancelled && world.proto == old(world.proto).(phase := Waiting, clients := unhealthyClients)
      ensures !wake.FutureReady? ==> world.proto.phase.Leaving?
    {
      var message: string := *;
      if permanent {
        world.Note(Action.Publish(Blocked(Failure(message))));
      } else {
        var limit := Retry.JitterLimit(world.policy);
        var jitter: int :| -limit <= jitter <= limit;
        var delay := Retry.Delay(world.policy, attempt, jitter);
        Retry.DelayWithinJitter(world.policy, attempt, jitter);
        world.Note(Action.Publish(Reconnecting(attempt, delay, Failure(message))));
      }
      wake := WhileUnhealthy(false);
    }

    /**
      Waits for the connector (`dial`) or for the backoff, turning clients away meanwhile.  Every turn
      looks at cancellation first.
    */
    method WhileUnhealthy(dial: bool) returns (wake: Wake)
      requires Valid() && listener == home
      requires world.proto.phase == if dial then Announced else Waiting
      modifies this`unhealthyClients, world
      ensures Valid() && listener == home && old(world.trace) <= world.trace
      ensures wake.FutureReady? ==>
        && !world.cancelled
        && world.proto == old(world.proto).(phase := if dial then Dialing else Waiting, clients := unhealthyClients)
      ensures !wake.FutureReady? ==> world.proto.phase.Leaving?
      ensures wake.Interrupted? ==> world.cancelled
    {
      world.Suspend();
      if world.cancelled {
        world.Note(LoopLeft);
        return Interrupted;
      }
      if dial {
        world.Note(DialStarted);
      }
      var turns: nat := *;
      while turns > 0
        invariant Valid() && !world.cancelled && old(world.trace) <= world.trace
        invariant world.proto ==
                  old(world.proto).(phase := if dial then Dialing else Waiting, clients := unhealthyClients)
      {
        var broken := ClientTurn();
        if broken {
          world.Note(AcceptFailed);
          return ListenerBroken;
        }
        world.Suspend();
        if world.cancelled {
          world.Note(LoopLeft);
          return Interrupted;
        }
        turns := turns - 1;
      }
      return FutureReady;
    }

    method ClientTurn() returns (broken: bool)
      requires Valid() && (world.proto.phase.Dialing? || world.proto.phase.Waiting?) && !world.cancelled
      modifies this`unhealthyClients, world
      ensures Valid() && world.proto == old(world.proto).(clients := unhealthyClients)
      ensures old(world.trace) <= world.trace
    {
      broken := false;
      var turn: Turn := *;
      match turn {
        case ClientDone =>
          if unhealthyClients > 0 {
            world.Note(ClientJoined);
            unhealthyClients := unhealthyClients - 1;
          }
        case ClientArrives =>
          // a raw Local client is simply dropped
          if unhealthyClients < MAX_CLIENTS && dynamic {
            world.Note(ClientTaken);
            unhealthyClients := unhealthyClients + 1;
          }
        case ListenerFails => broken := unhealthyClients < MAX_CLIENTS;
        case Quiet =>
      }
    }

    method ShutdownUnhealthyClients()
      requires Valid() && world.proto.phase.Leaving?
      modifies this`unhealthyClients, world
      ensures Valid() && unhealthyClients == 0
      ensures world.proto == old(world.proto).(clients := 0)
    {
      while unhealthyClients > 0
        invariant Valid() && world.proto == old(world.proto).(clients := unhealthyClients)
      {
        world.Note(ClientJoined);
        unhealthyClients := unhealthyClients - 1;
      }
    }
  }
}
