/**
  The imperative reducer: all lifecycle mutation passes through `Transition`, which updates the
  fields in place and appends to a bounded journal.
*/
module StateMachineModule {
  import opened Wrappers
  import opened LifecycleTypes
  import opened Reducer
  import LifecycleTheorems

  const JOURNAL_LIMIT: nat := 200

  function Entries(log: seq<Taken>): (r: seq<StateTransition>) {
    seq(|log|, i requires 0 <= i < |log| => Entry(log[i]))
  }

  function Journal(log: seq<Taken>): seq<StateTransition> { Recent(Entries(log), JOURNAL_LIMIT) }

  lemma RunGrows(m: Machine, log: seq<Taken>, t: Taken)
    requires Chain(m, log) && t.before == Final(m, log)
    requires React(t.before, t.event) == (t.after, Ok(Applied(t.effect)))
    ensures Chain(m, log + [t]) && Final(m, log + [t]) == t.after
  {
    assert Follows(t);
  }

  lemma JournalGrows(log: seq<Taken>, t: Taken)
    ensures var j := Journal(log);
            Journal(log + [t]) == (if |j| == JOURNAL_LIMIT then j[1..] else j) + [Entry(t)]
  {
    assert Entries(log + [t]) == Entries(log) + [Entry(t)];
  }

  lemma JournalLine(log: seq<Taken>, k: nat)
    requires k < |Journal(log)|
    ensures |Journal(log)| == Min(|log|, JOURNAL_LIMIT) && Journal(log)[k] == Entry(log[|log| - |Journal(log)| + k])
  {
  }

  /** Lines next to each other in the journal link up. */
  lemma JournalIsLinked(m: Machine, log: seq<Taken>, k: nat)
    requires Chain(m, log) && k + 1 < |Journal(log)|
    ensures var j := Journal(log);
            j[k].to == j[k + 1].from && j[k].generation <= j[k + 1].generation
  {
    JournalLine(log, k);
    JournalLine(log, k + 1);
    LifecycleTheorems.JournalLinks(m, log, |log| - |Journal(log)| + k);
  }

  /** The newest line of the journal shows the current phase and generation. */
  lemma JournalIsCurrent(m: Machine, log: seq<Taken>)
    requires Chain(m, log) && log != []
    ensures var j := Journal(log);
            && |j| == Min(|log|, 200) && j[|j| - 1].to == PhaseOf(Final(m, log).state.runtime)
            && j[|j| - 1].at == log[|log| - 1].at && j[|j| - 1].cause == Cause(log[|log| - 1].event)
            && j[|j| - 1].generation == Final(m, log).state.generation
  {
    JournalLine(log, |Journal(log)| - 1);
    LifecycleTheorems.JournalLinks(m, log, |log| - 1);
  }

  class StateMachine {
    var state: Lifecycle
    var journal: seq<StateTransition>
    var restartAfterShutdown: bool
    const listenerRequired: bool

    // every Applied transition since construction, oldest first
    ghost var log: seq<Taken>

    function Value(): Machine
      reads this
    {
      Machine(state, restartAfterShutdown, listenerRequired)
    }

    ghost predicate Valid()
      reads this
    {
      && Chain(New(listenerRequired), log)
      && Value() == Final(New(listenerRequired), log)
      && journal == Journal(log)
    }

    constructor (listenerRequired: bool)
      ensures Valid() && log == [] && journal == [] && Value() == New(listenerRequired)
    {
      this.listenerRequired := listenerRequired;
      state := Lifecycle(WantStopped, Stopped, if listenerRequired then Unbound else NotRequired, DEFAULT_HEALTH, 0);
      journal := [];
      restartAfterShutdown := false;
      log := [];
    }

    method Transition(event: Event, now: nat) returns (r: Result<EventOutcome, MachineError>)
      requires Valid()
      modifies this
      ensures Valid()
      ensures (Value(), r) == React(old(Value()), event)
      ensures r.Ok? && r.value.Applied? ==>
        log == old(log) + [Taken(old(Value()), event, Value(), r.value.effect, now)]
      ensures !(r.Ok? && r.value.Applied?) ==> log == old(log) && journal == old(journal)
    {
      if Tag(event).Some? && Tag(event).value != state.generation {
        return Ok(IgnoredStale);
      }
      var from := PhaseOf(state.runtime);
      ghost var before := Value();
      r := Apply(event);
      if r.Ok? && r.value.Applied? {
        Record(from, Cause(event), now, Taken(before, event, Value(), r.value.effect, now));
      }
    }

    /** The reducer's case split, on an event that is not stale. */
    method Apply(event: Event) returns (r: Result<EventOutcome, MachineError>)
      requires Judge(Value(), event) != Stale
      modifies this`state, this`restartAfterShutdown
      ensures (Value(), r) == React(old(Value()), event)
    {
      var from := PhaseOf(state.runtime);
      var refusal := InvalidTransition(Cause(event), from);
      var effect: Option<TransitionEffect> := None;
      match event {
        case Start =>
          if !state.runtime.Stopped? { return Err(refusal); }
          var advanced := NextGeneration();
          if !advanced { return Err(GenerationExhausted); }
          Begin();
          effect := Some(BeginGeneration(state.generation));
        case Stop =>
          if state.runtime.Stopped? || state.runtime.Stopping? { return Ok(NoChange); }
          var oldGeneration := state.generation;
          var advanced := NextGeneration();
          if !advanced { return Err(GenerationExhausted); }
          state := state.(desired := WantStopped, runtime := Stopping, health := DEFAULT_HEALTH);
          restartAfterShutdown := false;
          effect := Some(CancelAndJoin(oldGeneration));
        case Restart =>
          if state.runtime.Stopping? { return Ok(NoChange); }
          var oldGeneration := state.generation;
          var advanced := NextGeneration();
          if !advanced { return Err(GenerationExhausted); }
          if state.runtime.Stopped? {
            Begin();
            effect := Some(BeginGeneration(state.generation));
          } else {
            state := state.(runtime := Stopping, health := DEFAULT_HEALTH);
            restartAfterShutdown := true;
            effect := Some(CancelAndJoin(oldGeneration));
          }
        case ConfigChanged =>
          if state.runtime.Stopping? { return Ok(NoChange); }
          var oldGeneration := state.generation;
          var advanced := NextGeneration();
          if !advanced { return Err(GenerationExhausted); }
          if !state.runtime.Stopped? {
            state := state.(runtime := Stopping, health := DEFAULT_HEALTH);
            restartAfterShutdown := state.desired == WantRunning;
            effect := Some(CancelAndJoin(oldGeneration));
          }
        case ShutdownComplete(_) =>
          if !state.runtime.Stopping? { return Err(refusal); }
          state := state.(listener := if listenerRequired then Unbound else NotRequired, health := DEFAULT_HEALTH);
          if restartAfterShutdown {
            restartAfterShutdown := false;
            Begin();
            effect := Some(BeginGeneration(state.generation));
          } else {
            state := state.(runtime := Stopped);
          }
        case StartPhaseReached(_, phase) =>
          if !RequirePhase({PStarting}) { return Err(refusal); }
          state := state.(runtime := Starting(phase));
        case ListenerBound(_, address) =>
          if !RequireStartPhase(AcquiringListener) { return Err(refusal); }
          if !listenerRequired || !state.listener.Unbound? { return Err(refusal); }
          state := state.(listener := Bound(address));
        case ListenerConflict(_, address) =>
          if !RequireStartPhase(AcquiringListener) { return Err(refusal); }
          if !listenerRequired || !state.listener.Unbound? { return Err(refusal); }
          state := state.(listener := Conflict(address, None), runtime := Blocked(ConflictError(address)));
        case HopConnecting(_, hop, totalHops, attempt) =>
          if !RequirePhase({PStarting, PReconnecting}) { return Err(refusal); }
          if from == PStarting && !RequireStartPhase(BuildingJumpChain) { return Err(refusal); }
          if !CheckHop(hop, totalHops) { return Err(InvalidHop); }
          state := state.(health := DEFAULT_HEALTH, runtime := Connecting(hop, totalHops, attempt));
        case HopAuthenticating(_, hop, totalHops) =>
          if !RequirePhase({PConnecting}) { return Err(refusal); }
          if !CheckHop(hop, totalHops) { return Err(InvalidHop); }
          if state.runtime.hop != hop || state.runtime.totalHops != totalHops { return Err(refusal); }
          state := state.(runtime := Authenticating(hop, totalHops));
        case Authenticated(_) =>
          if !RequirePhase({PAuthenticating}) { return Err(refusal); }
          if state.runtime.hop != state.runtime.totalHops { return Err(refusal); }
          state := state.(health := state.health.(authenticated := true), runtime := EstablishingForward);
        case HopAuthenticated(_) =>
          if !RequirePhase({PAuthenticating}) { return Err(refusal); }
          if state.runtime.hop >= state.runtime.totalHops { return Err(refusal); }
          state := state.(runtime := Connecting(state.runtime.hop + 1, state.runtime.totalHops, 0));
        case ForwardReady(_) =>
          if !RequirePhase({PEstablishingForward}) { return Err(refusal); }
          state := state.(health := state.health.(forwardReady := true), runtime := Starting(StartingHealthMonitor));
        case PingSucceeded(_, at, rttMs) =>
          if !RequirePhase({PStarting, PHealthy, PDegraded}) { return Err(refusal); }
          if !state.health.authenticated || !state.health.forwardReady { return Err(refusal); }
          state := state.(health :=
                            state.health.(lastRttMs := Some(Min(rttMs, U32_MAX)), consecutivePingFailures := 0));
          if !state.runtime.Healthy? {
            state := state.(runtime := Healthy(at));
          }
        case PingFailed(_, at, attempt, nextRetryAt) =>
          if !RequirePhase({PStarting, PHealthy, PDegraded}) { return Err(refusal); }
          if !state.health.authenticated || !state.health.forwardReady { return Err(refusal); }
          var failures := Min(state.health.consecutivePingFailures + 1, U8_MAX);
          state := state.(health := state.health.(consecutivePingFailures := failures));
          if failures >= PING_FAILURE_LIMIT {
            state := state.(health := state.health.(authenticated := false, forwardReady := false),
                            runtime := Reconnecting(attempt, nextRetryAt, PING_TIMEOUT_ERROR));
          } else if !state.runtime.Degraded? {
            state := state.(runtime := Degraded(at, PingTimeout));
          }
        case Disconnected(_, error, attempt, nextRetryAt) =>
          if !RequireRunning() { return Err(refusal); }
          state := state.(health := DEFAULT_HEALTH);
          state := state.(runtime := if error.retryability.Transient? then Reconnecting(attempt, nextRetryAt, error)
                                     else Blocked(error));
      }
      return Ok(Applied(effect));
    }

    method NextGeneration() returns (advanced: bool)
      modifies this`state
      ensures advanced == (old(state).generation < U64_MAX)
      ensures state == if advanced then old(state).(generation := old(state).generation + 1) else old(state)
    {
      advanced := state.generation < U64_MAX;
      if advanced {
        state := state.(generation := state.generation + 1);
      }
    }

    method Begin()
      modifies this`state
      ensures state == Lifecycle(WantRunning, Starting(Validating), IdleListener(listenerRequired), DEFAULT_HEALTH,
                                 old(state).generation)
    {
      state := state.(desired := WantRunning, runtime := Starting(Validating), health := DEFAULT_HEALTH,
                      listener := if listenerRequired then Unbound else NotRequired);
    }

    predicate RequireRunning()
      reads this
    {
      state.desired == WantRunning && PhaseOf(state.runtime) !in {PStopping, PStopped, PBlocked, PFailed}
    }

    predicate RequirePhase(valid: set<RuntimePhase>)
      reads this
    {
      RequireRunning() && PhaseOf(state.runtime) in valid
    }

    predicate RequireStartPhase(expected: StartPhase)
      reads this
    {
      RequireRunning() && state.runtime == Starting(expected)
    }

    static predicate CheckHop(hop: nat, totalHops: nat) {
      totalHops > 0 && 1 <= hop <= totalHops
    }

    method Record(from: RuntimePhase, cause: string, now: nat, ghost taken: Taken)
      requires Chain(New(listenerRequired), log) && journal == Journal(log)
      requires React(taken.before, taken.event) == (taken.after, Ok(Applied(taken.effect)))
      requires taken.before == Final(New(listenerRequired), log) && taken.after == Value()
      requires from == PhaseOf(taken.before.state.runtime) && cause == Cause(taken.event) && now == taken.at
      modifies this`journal, this`log
      ensures Valid() && log == old(log) + [taken]
    {
      RunGrows(New(listenerRequired), log, taken);
      JournalGrows(log, taken);
      if |journal| == JOURNAL_LIMIT {
        journal := journal[1..];
      }
      journal := journal + [StateTransition(from, PhaseOf(state.runtime), now, cause, state.generation)];
      log := log + [taken];
    }
  }
}
