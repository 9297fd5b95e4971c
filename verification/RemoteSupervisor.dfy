/**
  The Remote supervisor and its worker over a real session object.  Network, clock, server and user are
  the environment (`*`); every action is recorded and checked against `RemoteProtocol`.
*/
module RemoteSupervisor {
  import opened Wrappers
  import opened Domain
  import opened SupervisorTypes
  import opened RemoteProtocol
  import opened RemoteSession
  import Retry
  import L = LifecycleTypes

  datatype WorkerExit = Interrupted | SessionClosed | HealthLost | ChannelsClosed

  datatype WorkerTurn = SessionTick(closed: bool) | HealthTick(ok: bool) | ConnDone | ChannelTaken | NoMoreChannels

  class World {
    const policy: RetryPolicy
    var cancelled: bool
    ghost var trace: seq<Action>
    ghost var proto: Proto

    ghost predicate Valid()
      reads this
    {
      && Replay(policy, trace) == Some(proto)
      && Sound(proto)
      && cancelled == proto.cancelled
    }

    constructor (policy: RetryPolicy)
      ensures Valid() && !cancelled && trace == [] && proto == INITIAL && this.policy == policy
    {
      this.policy := policy;
      cancelled := false;
      trace := [];
      proto := INITIAL;
    }

    ghost method Note(a: Action)
      requires Valid() && !a.Cancelled? && Post(policy, proto, a).Some?
      modifies this`trace, this`proto
      ensures Valid() && trace == old(trace) + [a] && Some(proto) == Post(policy, old(proto), a)
    {
      assert (trace + [a])[..|trace|] == trace;
      PostKeepsSound(policy, proto, a);
      proto := Post(policy, proto, a).value;
      trace := trace + [a];
    }

    /** A point where the task may be suspended: the user may or may not press Stop meanwhile. */
    method Suspend()
      requires Valid() && !proto.phase.Done?
      modifies this
      ensures Valid() && (old(cancelled) ==> cancelled) && proto == old(proto).(cancelled := cancelled)
      ensures trace == if cancelled == old(cancelled) then old(trace) else old(trace) + [Cancelled]
    {
      var stop: bool := *;
      if stop && !cancelled {
        assert (trace + [Cancelled])[..|trace|] == trace;
        proto := proto.(cancelled := true);
        trace := trace + [Cancelled];
        cancelled := true;
      }
    }
  }

  class RemoteForwardWorker {
    const world: World
    const session: DirectSshSession       // the final session of the chain
    const boundPort: nat
    var connections: nat

    /** The session's gate is exactly the registration the protocol knows of. */
    ghost predicate Valid()
      reads this, world, session, session.enabled
    {
      && world.Valid() && session.Valid() && session.handle
      && world.proto.gate == session.Gate() == session.remoteActive
      && (session.remoteActive.Some? ==> session.remoteActive.value.1 == boundPort)
      && connections == world.proto.conns
    }

    constructor (world: World, session: DirectSshSession, port: nat)
      requires world.Valid() && session.Valid() && session.handle && world.proto.conns == 0
      requires world.proto.gate == session.Gate() == session.remoteActive && session.remoteActive.Some?
      requires session.remoteActive.value.1 == port
      ensures Valid() && this.world == world && this.session == session && boundPort == port
    {
      this.world := world;
      this.session := session;
      boundPort := port;
      connections := 0;
    }

    /** The server may open channels whenever it likes; the gate answers. */
    method ServerOffers()
      requires Valid()
      modifies world, session`queued
      ensures Valid() && world.proto == old(world.proto) && world.cancelled == old(world.cancelled)
      ensures old(world.trace) <= world.trace
    {
      var address: string, port: nat := *, *;
      var verdict := session.OfferChannel(address, port);
      if verdict.Accepted? {
        world.Note(ChannelAccepted(address, port));
      }
    }

    method Publish(state: SupervisorState)
      requires Valid() && Published(world.policy, world.proto, state).Some?
      modifies world
      ensures Valid() && Some(world.proto) == Published(world.policy, old(world.proto), state)
      ensures world.cancelled == old(world.cancelled) && world.trace == old(world.trace) + [Action.Publish(state)]
    {
      world.Note(Action.Publish(state));
      PublishKeepsGate(world.policy, old(world.proto), state);
    }

    /** Serves one session; the supervisor looks at cancellation before every turn and relays health at once. */
    method Run(turns: nat) returns (exit: WorkerExit)
      requires Valid() && world.proto.phase == Serving(0, Current)
      modifies this, world, session`queued
      ensures Valid() && old(world.trace) <= world.trace && world.proto.phase.Serving?
      ensures world.proto == old(world.proto).(phase := world.proto.phase, cancelled := world.cancelled,
                                               conns := connections)
      ensures exit.Interrupted? ==> world.cancelled
      ensures exit.HealthLost? <==> world.proto.phase.failures == L.PING_FAILURE_LIMIT && !exit.Interrupted?
      ensures exit.SessionClosed? || exit.ChannelsClosed? ==> world.proto.phase.told.Current?
      ensures !world.proto.phase.told.Fresh?
    {
      var pingFailures: nat := 0;
      var n := turns;
      while n > 0
        invariant Valid() && old(world.trace) <= world.trace && world.proto.phase == Serving(pingFailures, Current)
        invariant world.proto == old(world.proto).(phase := world.proto.phase, cancelled := world.cancelled,
                                                   conns := connections)
      {
        n := n - 1;
        ServerOffers();
        world.Suspend();
        if world.cancelled {
          return Interrupted;
        }
        var turn: WorkerTurn := *;
        match turn {
          case SessionTick(closed) =>
            if closed {
              return SessionClosed;
            }
          case NoMoreChannels =>
            if connections < MAX_CONNECTIONS {
              return ChannelsClosed;
            }
          case HealthTick(ok) =>
            var alive: bool;
            alive, pingFailures := Ping(ok, pingFailures);
            if !alive {
              return if world.cancelled then Interrupted else HealthLost;
            }
          case _ => Relay(turn);
        }
      }
      // every longer session is covered by a larger `turns`; here the session is found closed
      exit := SessionClosed;
    }

    method Ping(ok: bool, failures: nat) returns (alive: bool, pingFailures: nat)
      requires Valid() && world.proto.phase == Serving(failures, Current) && !world.cancelled
      modifies world
      ensures Valid() && old(world.trace) <= world.trace
      ensures world.proto == old(world.proto).(phase := world.proto.phase, cancelled := world.cancelled)
      ensures alive ==> world.proto.phase == Serving(pingFailures, Current)
      ensures pingFailures == if ok then 0 else failures + 1
      ensures !world.cancelled && pingFailures < 3 ==> alive
      ensures !alive ==> world.proto.phase.Serving? && world.proto.phase.told.Pending?
                         && (world.cancelled || world.proto.phase.failures == L.PING_FAILURE_LIMIT)
    {
      world.Note(HealthPing(ok));
      world.Suspend();
      pingFailures := if ok then 0 else Min(failures + 1, L.U8_MAX);
      if world.cancelled || pingFailures >= L.PING_FAILURE_LIMIT {
        return false, pingFailures;   // the running ping is dropped when the supervisor is cancelled
      }
      alive := true;
      if ok {
        var rtts: seq<nat> := *;
        Publish(Healthy(rtts, Some(boundPort)));
      } else {
        var message: string := *;
        Publish(Degraded(pingFailures, Failure(message)));
      }
    }

    method Relay(turn: WorkerTurn)
      requires Valid() && world.proto.phase.Serving? && world.proto.phase.told.Current? && !world.cancelled
      modifies this`connections, world, session`queued
      ensures Valid() && old(world.trace) <= world.trace && world.proto == old(world.proto).(conns := connections)
    {
      if turn.ConnDone? && connections > 0 {
        world.Note(ConnJoined);
        connections := connections - 1;
      } else if turn.ChannelTaken? && connections < MAX_CONNECTIONS && session.queued > 0 {
        session.queued := session.queued - 1;
        world.Note(ConnTaken);
        connections := connections + 1;
      }
    }

    /** Gives the server's listener back while the session is still up, then joins, then disconnects. */
    method Stop(answer: ServerAnswer)
      requires Valid() && world.proto.phase.Ended?
      modifies this, world, session, session.enabled
      ensures world.Valid() && connections == 0 && session.Valid() && !session.handle && session.Gate().None?
      ensures old(world.trace) <= world.trace
      ensures world.proto == old(world.proto).(phase := Draining(false), gate := None, conns := 0,
                                               cancelled := world.cancelled)
    {
      ServerOffers();
      Unregister(answer);
      world.Suspend();
      JoinConnections();
      session.Disconnect();
      world.Note(ChainClosed);
    }

    method Unregister(answer: ServerAnswer)
      requires Valid() && world.proto.phase.Ended?
      modifies world, session`remoteActive, session.enabled
      ensures world.Valid() && session.Valid() && session.handle && session.Gate().None?
      ensures world.proto == old(world.proto).(phase := Draining(true), gate := None)
      ensures old(world.trace) <= world.trace
    {
      var result, requested := session.CancelRemoteForward(answer);
      assert requested;
      world.Note(Unregistered);
    }

    method JoinConnections()
      requires world.Valid() && connections == world.proto.conns && world.proto.phase == Draining(true)
      modifies this`connections, world
      ensures world.Valid() && connections == 0 && world.proto == old(world.proto).(conns := 0)
      ensures old(world.trace) <= world.trace
    {
      while connections > 0
        invariant world.Valid() && connections == world.proto.conns && old(world.trace) <= world.trace
        invariant world.proto == old(world.proto).(conns := connections)
      {
        world.Note(ConnJoined);
        connections := connections - 1;
      }
    }
  }

  lemma PublishKeepsGate(policy: RetryPolicy, p: Proto, state: SupervisorState)
    requires Published(policy, p, state).Some?
    ensures var p' := Published(policy, p, state).value; p' == p.(phase := p'.phase, announced := p'.announced)
  {
  }

  class RemoteForwardSupervisor {
    const world: World
    const target: Endpoint
    const remote: Option<Endpoint>

    ghost predicate Valid()
      reads this, world
    {
      world.Valid() && Retry.Representable(world.policy)
    }

    constructor (world: World, target: Endpoint, remote: Option<Endpoint>)
      requires world.Valid() && Retry.Representable(world.policy)
      ensures Valid() && this.world == world
    {
      this.world := world;
      this.target := target;
      this.remote := remote;
    }

    /** One whole task, cut off after `rounds` turns of the retry loop if it is still running then. */
    method Run(rounds: nat) returns (finished: bool)
      requires Valid() && world.proto == INITIAL.(cancelled := world.cancelled)
      modifies world
      ensures Valid()
      ensures old(world.cancelled) && rounds > 0 ==> finished
      ensures if finished then world.proto.phase.Done? else world.proto.phase.Idle?
      // every turn has announced an attempt
      ensures !finished ==> Attempts(world.trace) == rounds
    {
      var attempt: nat := 1;
      var n := 0;
      while n < rounds
        invariant n <= rounds && world.proto.announced == n
        invariant Valid() && world.proto.phase.Idle? && world.proto.attempt == attempt
        invariant old(world.cancelled) ==> n == 0 && world.cancelled
      {
        n := n + 1;
        var again: bool;
        attempt, again := Turn(attempt);
        if !again {
          world.Note(Action.Publish(Stopped));
          return true;
        }
      }
      AnnouncementsAreCounted(world.policy, world.trace);
      return false;
    }

    method Turn(attempt: nat) returns (next: nat, again: bool)
      requires Valid() && world.proto.phase.Idle? && world.proto.attempt == attempt
      modifies world
      ensures Valid()
      ensures if again then world.proto.phase.Idle? && world.proto.attempt == next else world.proto.phase.Leaving?
      ensures old(world.cancelled) ==> !again
      ensures again ==> world.proto.announced == old(world.proto.announced) + 1
    {
      world.Suspend();
      if world.cancelled {
        world.Note(LoopLeft);
        return attempt, false;
      }
      world.Note(Action.Publish(Connecting(attempt)));
      next, again := Attempt(attempt);
    }

    /** One attempt under its own session token, up to and including the wait before the next. */
    method Attempt(attempt: nat) returns (next: nat, again: bool)
      requires Valid() && world.proto.phase.Announced? && world.proto.attempt == attempt
      modifies world
      ensures Valid() && world.proto.announced == old(world.proto.announced)
      ensures if again then world.proto.phase.Idle? && world.proto.attempt == next else world.proto.phase.Leaving?
    {
      world.Note(TokenMade);
      var linked := Dial();
      if linked.None? {
        return attempt, false;
      }
      var served, permanent := false, linked.value.Refused?;
      if linked.value.ChainUp? {
        var session := new DirectSshSession(remote);
        served, permanent := UseSession(session);
      }
      world.Note(TokenCancelled);
      if !served {
        again := AfterFailure(attempt, permanent);
        return Min(attempt + 1, L.U32_MAX), again;
      }
      next, again := AfterSession(attempt);
      if again {
        again := AfterFailure(next, false);
      }
    }

    method AfterSession(attempt: nat) returns (next: nat, going: bool)
      requires Valid() && world.proto.phase.Settled? && world.proto.attempt == attempt
      modifies world
      ensures Valid() && world.proto.announced == old(world.proto.announced)
      ensures if going then world.proto.phase == Failed(false) && world.proto.attempt == next == world.proto.next
              else world.proto.phase.Leaving?
    {
      world.Suspend();
      if world.cancelled {
        world.Note(LoopLeft);
        return attempt, false;
      }
      var lifetime: nat := *;
      world.Note(Measured(lifetime));
      return if Retry.ShouldReset(world.policy, lifetime) then 1 else Min(attempt + 1, L.U32_MAX), true;
    }

    /** None when cancelled. */
    method Dial() returns (linked: Option<DialResult>)
      requires Valid() && world.proto.phase.Armed?
      modifies world
      ensures Valid() && world.proto.announced == old(world.proto.announced)
      ensures linked.None? ==> world.proto.phase.Leaving?
      ensures linked.Some? ==>
        && !world.cancelled
        && world.proto ==
           old(world.proto).(phase := if linked.value.ChainUp? then Linked else Broken(linked.value.Refused?))
    {
      world.Suspend();
      if world.cancelled {
        world.Note(TokenCancelled);
        return None;
      }
      world.Note(DialStarted);
      world.Suspend();
      if world.cancelled {
        world.Note(TokenCancelled);
        return None;
      }
      var dialed: DialResult := *;
      world.Note(DialEnded(dialed));
      return Some(dialed);
    }

    /**
      Pings, registers, serves and tears down one chain.  `served` says whether a worker ran; either way
      the chain is closed on return, and a registration made on it has been cancelled before that.
    */
    method UseSession(session: DirectSshSession) returns (served: bool, permanent: bool)
      requires Valid() && world.proto.phase.Linked? && world.proto.conns == 0
      requires session.Valid() && session.handle && session.remoteActive.None? && session.Gate().None?
      modifies world, session, session.enabled
      ensures Valid() && session.Valid() && !session.handle && session.Gate().None?
      ensures world.proto == old(world.proto).(phase := if served then Draining(false) else Broken(permanent),
                                               cancelled := world.cancelled)
      ensures served ==> exists k :: |old(world.trace)| <= k < |world.trace| && ShowsHealthy(world.trace[k])
      ensures served ==> target.host != "" && ByteLength(target.host) <= 255 && target.port != 0
    {
      var port: Option<nat>;
      port, permanent := OpenForward(session);
      if port.Some? {
        ghost var k := |world.trace|;
        Serve(session, port.value);
        assert ShowsHealthy(world.trace[k]);
        return true, false;
      }
      Close(session);
      served := false;
    }

    /** First ping, target check and registration; neither is raced against cancellation. */
    method OpenForward(session: DirectSshSession) returns (port: Option<nat>, permanent: bool)
      requires Valid() && world.proto.phase.Linked? && world.proto.conns == 0
      requires session.Valid() && session.handle && session.remoteActive.None? && session.Gate().None?
      modifies world, session`forwarded, session`remoteActive, session.enabled
      ensures Valid() && session.Valid() && old(world.trace) <= world.trace
      ensures port.None? ==> world.proto == old(world.proto).(phase := Faulty(permanent), cancelled := world.cancelled)
      ensures port.Some? ==>
        && world.proto == old(world.proto).(phase := Serving(0, Fresh), gate := session.Gate(),
                                            cancelled := world.cancelled)
        && session.Gate() == session.remoteActive && session.remoteActive.Some?
        && session.remoteActive.value.1 == port.value
      ensures port.Some? ==> target.host != "" && ByteLength(target.host) <= 255 && target.port != 0
    {
      var pinged: bool := *;
      world.Suspend();
      world.Note(FirstPing(pinged));
      if !pinged {
        return None, false;
      }
      if target.host == "" || ByteLength(target.host) > HOST_BYTES || target.port == 0 {
        world.Note(NotRegistered(true));
        return None, true;
      }
      port, permanent := Register(session);
    }

    method Close(session: DirectSshSession)
      requires Valid() && world.proto.phase.Faulty? && session.Valid()
      modifies world, session, session.enabled
      ensures Valid() && session.Valid() && !session.handle && session.Gate().None?
      ensures world.proto == old(world.proto).(phase := Broken(old(world.proto).phase.permanent))
    {
      session.Disconnect();
      world.Note(ChainClosed);
    }

    method Register(session: DirectSshSession) returns (port: Option<nat>, permanent: bool)
      requires Valid() && world.proto.phase.Ready?
      requires session.Valid() && session.handle && session.remoteActive.None? && session.Gate().None?
      modifies world, session`forwarded, session`remoteActive, session.enabled
      ensures Valid() && session.Valid() && old(world.trace) <= world.trace
      ensures port.None? ==> world.proto == old(world.proto).(phase := Faulty(permanent), cancelled := world.cancelled)
      ensures port.Some? ==>
        && world.proto == old(world.proto).(phase := Serving(0, Fresh), gate := session.Gate(),
                                            cancelled := world.cancelled)
        && session.Gate() == session.remoteActive && session.remoteActive.Some?
        && session.remoteActive.value.1 == port.value
    {
      var answer: ServerAnswer := *;
      world.Suspend();
      var registration := session.RequestRemoteForward(answer);
      if registration.Err? {
        permanent := *;
        world.Note(NotRegistered(permanent));
        return None, permanent;
      }
      world.Note(Registered(session.remoteActive.value.0, registration.value));
      return Some(registration.value), false;
    }

    method Serve(session: DirectSshSession, port: nat)
      requires Valid() && world.proto.phase == Serving(0, Fresh) && world.proto.conns == 0
      requires session.Valid() && session.handle
      requires world.proto.gate == session.Gate() == session.remoteActive
      requires session.remoteActive.Some? && session.remoteActive.value.1 == port
      modifies world, session, session.enabled
      ensures Valid() && session.Valid() && !session.handle && session.Gate().None?
      ensures world.proto == old(world.proto).(phase := Draining(false), gate := None, cancelled := world.cancelled)
      // Healthy is shown first, whether or not Stop came meanwhile
      ensures old(world.trace) < world.trace && ShowsHealthy(world.trace[|old(world.trace)|])
    {
      var worker := new RemoteForwardWorker(world, session, port);
      var rtts: seq<nat>, turns: nat, answer: ServerAnswer := *, *, *;
      worker.Publish(Healthy(rtts, Some(port)));
      var exit := worker.Run(turns);
      world.Note(WorkerEnded);
      worker.Stop(answer);
    }

    /** Publishes the failure and waits; false when cancelled. */
    method AfterFailure(attempt: nat, permanent: bool) returns (again: bool)
      requires Valid() && world.proto.phase == Failed(permanent) && world.proto.attempt == attempt
      modifies world
      ensures Valid() && world.proto.announced == old(world.proto.announced)
      ensures |old(world.trace)| < |world.trace| && old(world.trace) <= world.trace
      ensures var shown := world.trace[|old(world.trace)|];
              && shown.Publish?
              && if permanent then shown.state.Blocked? else shown.state.Reconnecting? && shown.state.attempt == attempt
      ensures if again then world.proto.phase.Idle? && world.proto.attempt == old(world.proto).next
              else world.proto.phase.Leaving?
    {
      ShowFailure(attempt, permanent);
      again := Wait();
    }

    method ShowFailure(attempt: nat, permanent: bool)
      requires Valid() && world.proto.phase == Failed(permanent) && world.proto.attempt == attempt
      modifies world
      ensures Valid() && world.proto == old(world.proto).(phase := Waiting)
      ensures |world.trace| == |old(world.trace)| + 1 && old(world.trace) <= world.trace
      ensures var shown := world.trace[|old(world.trace)|];
              && shown.Publish?
              && if permanent then shown.state.Blocked? else shown.state.Reconnecting? && shown.state.attempt == attempt
    {
      var message: string := *;
      if permanent {
        world.Note(Action.Publish(Blocked(Failure(message))));
      } else {
        var limit := Retry.JitterLimit(world.policy);
        var jitter: int :| -limit <= jitter <= limit;
        var delay := Retry.Delay(world.policy, attempt, jitter);
        Retry.DelayWithinJitter(world.policy, attempt, jitter);
        world.Note(Action.Publish(Reconnecting(attempt, delay, Failure(message))));
      }
    }

    method Wait() returns (again: bool)
      requires Valid() && world.proto.phase.Waiting?
      modifies world
      ensures Valid() && old(world.trace) <= world.trace && world.proto.announced == old(world.proto.announced)
      ensures if again then world.proto.phase.Idle? && world.proto.attempt == old(world.proto).next
              else world.proto.phase.Leaving?
    {
      world.Suspend();
      if world.cancelled {
        world.Note(LoopLeft);
        return false;
      }
      world.Note(Waited);
      return true;
    }
  }
}
