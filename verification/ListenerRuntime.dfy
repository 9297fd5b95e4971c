/** The owner of one Local or Dynamic listener, which drives the lifecycle reducer. */
module ListenerRuntimeModule {
  import opened Wrappers
  import opened LifecycleTypes
  import opened Reducer
  import opened StateMachineModule
  import LifecycleTheorems

  datatype IoKind = AddrInUse | AccessDenied | AddrNotAvailable | InvalidInput | OtherIo

  /** What the operating system answers to bind followed by local_addr. */
  datatype BindOutcome = BoundTo(local: SocketAddr) | NoLocalAddr(kind: IoKind) | NotBound(kind: IoKind)

  datatype ListenerError = State(machine: MachineError) | Bind(address: SocketAddr, kind: IoKind)

  function BindError(kind: IoKind): TunnelError {
    match kind
    case AccessDenied => TunnelError(PermissionDenied, BindLocalPort, "bind", Permanent)
    case AddrNotAvailable => TunnelError(InvalidConfig, BindLocalPort, "bind", Permanent)
    case InvalidInput => TunnelError(InvalidConfig, BindLocalPort, "bind", Permanent)
    case _ => TunnelError(Network, BindLocalPort, "bind", Transient)
  }

  /** Only an unclassified failure is retried, and the reason shown is that of the operating system. */
  predicate ShowsBindFailure(r: RuntimeState, kind: IoKind) {
    match kind
    case AddrInUse => r.Blocked? && r.reason.kind == PortConflict
    case AccessDenied => r.Blocked? && r.reason.kind == PermissionDenied
    case AddrNotAvailable => r.Blocked? && r.reason.kind == InvalidConfig
    case InvalidInput => r.Blocked? && r.reason.kind == InvalidConfig
    case OtherIo => r.Reconnecting? && r.reason.kind == Network && r.attempt == 0
  }

  class ListenerRuntime {
    const machine: StateMachine
    // the bound socket, shown by its local address
    var listener: Option<SocketAddr>

    /** The port is owned exactly while the machine says Bound, and then on the way to the jump chain. */
    ghost predicate Valid()
      reads this, machine
    {
      && machine.Valid() && machine.listenerRequired
      && var s := machine.state;
      && (listener.Some? <==> s.runtime == Starting(BuildingJumpChain))
      && (listener.Some? ==> s.listener == Bound(listener.value))
      && (listener.None? ==> !s.listener.Bound?)
      && (s.runtime.Stopped? || s.runtime.Blocked? || s.runtime.Reconnecting? || listener.Some?)
    }

    constructor ()
      ensures Valid() && fresh(machine) && listener.None? && machine.Value() == New(true)
    {
      machine := new StateMachine(true);
      listener := None;
    }

    method StartListener(address: SocketAddr, os: BindOutcome, now: nat) returns (r: Result<nat, ListenerError>)
      requires Valid()
      modifies this, machine
      ensures Valid()
      // refused: nothing changes
      ensures !old(machine.state).runtime.Stopped? || old(machine.state).generation == U64_MAX ==>
        r.Err? && r.error.State? && machine.Value() == old(machine.Value()) && listener == old(listener)
      ensures old(machine.state).runtime.Stopped? && old(machine.state).generation < U64_MAX ==>
        && machine.state.generation == old(machine.state).generation + 1
        && (os.BoundTo? ==> r == Ok(machine.state.generation) && listener == Some(os.local))
        && (!os.BoundTo? ==>
              && r == Err(Bind(address, os.kind)) && listener.None?
              && (os.kind.AddrInUse? ==> machine.state.listener == Conflict(address, None))
              && ShowsBindFailure(machine.state.runtime, os.kind))
    {
      LifecycleTheorems.ReachableIsConsistent(true, machine.log);
      var started := machine.Transition(Start, now);
      match started {
        case Err(error) => return Err(State(error));
        case Ok(Applied(Some(BeginGeneration(generation)))) =>
          Advance(AcquiringListener, now);
          if os.BoundTo? {
            KeepBoundListener(os.local, now);
            return Ok(generation);
          }
          RecordBindFailure(generation, address, os.kind, now);
          return Err(Bind(address, os.kind));
        case _ => assert false;
      }
    }

    method Advance(phase: StartPhase, now: nat)
      requires machine.Valid() && AcceptsWork(machine.Value()) && machine.state.runtime.Starting?
      modifies machine
      ensures machine.Valid() && machine.state == old(machine.state).(runtime := Starting(phase))
    {
      var reached := machine.Transition(StartPhaseReached(machine.state.generation, phase), now);
      assert reached.Ok?;
    }

    method KeepBoundListener(local: SocketAddr, now: nat)
      requires machine.Valid() && CanBind(machine.Value())
      modifies this, machine
      ensures machine.Valid() && listener == Some(local)
      ensures machine.state == old(machine.state).(listener := Bound(local), runtime := Starting(BuildingJumpChain))
    {
      var bound := machine.Transition(ListenerBound(machine.state.generation, local), now);
      assert bound.Ok?;
      listener := Some(local);
      Advance(BuildingJumpChain, now);
    }

    /** Stopped means no owned port; only an exhausted generation counter can refuse. */
    method Stop(now: nat) returns (r: Result<(), ListenerError>)
      requires Valid()
      modifies this, machine
      ensures Valid()
      ensures old(machine.state).runtime.Stopped? ==> r.Ok? && machine.Value() == old(machine.Value())
      ensures !old(machine.state).runtime.Stopped? && old(machine.state).generation < U64_MAX ==>
        r.Ok? && machine.state.runtime.Stopped? && machine.state.generation == old(machine.state).generation + 1
      ensures r.Ok? ==> listener.None? && machine.state.runtime.Stopped? && machine.state.listener.Unbound?
      ensures r.Err? ==> old(machine.state).generation == U64_MAX && listener == old(listener)
                         && machine.Value() == old(machine.Value())
    {
      LifecycleTheorems.ReachableIsConsistent(true, machine.log);
      var stopping := machine.Transition(LifecycleTypes.Stop, now);
      match stopping {
        case Err(error) => return Err(State(error));
        case Ok(Applied(Some(CancelAndJoin(_)))) =>
          listener := None;
          var done := machine.Transition(ShutdownComplete(machine.state.generation), now);
          assert done.Ok?;
        case Ok(NoChange) =>
        case _ => assert false;
      }
      return Ok(());
    }

    method RecordBindFailure(generation: nat, address: SocketAddr, kind: IoKind, now: nat)
      requires machine.Valid() && CanBind(machine.Value()) && generation == machine.state.generation
      modifies machine
      ensures machine.Valid()
      ensures machine.state.generation == generation && !machine.state.listener.Bound?
      ensures kind.AddrInUse? ==> machine.state.listener == Conflict(address, None)
      ensures ShowsBindFailure(machine.state.runtime, kind)
    {
      if kind == AddrInUse {
        var conflict := machine.Transition(ListenerConflict(generation, address), now);
        assert conflict.Ok?;
      } else {
        var lost := machine.Transition(Disconnected(generation, BindError(kind), 0, now), now);
        assert lost.Ok?;
      }
    }
  }
}
