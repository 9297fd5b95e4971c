/**
  The protocol of one Remote supervisor task.  Each attempt has its own session token, independent of
  Stop, so that the server's listener can be given back before the transport goes down.
*/
module RemoteProtocol {
  import opened Wrappers
  import opened Domain
  import opened SupervisorTypes
  import Retry
  import HealthLoop
  import L = LifecycleTypes

  const MAX_CONNECTIONS: nat := 64

  datatype Action =
    | Cancelled
    | Publish(state: SupervisorState)
    | TokenMade                            // a fresh session token for this attempt
    | DialStarted
    | DialEnded(result: DialResult)
    | FirstPing(ok: bool)
    | Registered(host: string, port: nat)  // the server listens at host:port
    | NotRegistered(permanent: bool)
    | ChannelAccepted(host: string, port: nat)
    | HealthPing(ok: bool)
    | WorkerEnded
    | Unregistered                         // the cancel request has been sent
    | ChainClosed
    | TokenCancelled
    | Measured(lifetime: nat)
    | Waited
    | LoopLeft
    | ConnTaken | ConnJoined

  datatype Told = Fresh | Current | Pending

  datatype Phase =
    | Idle
    | Announced
    | Armed                                // token made, connector not polled yet
    | Dialing
    | Linked
    | Faulty(permanent: bool)              // chain open, of no use
    | Ready
    | Serving(failures: nat, told: Told)
    | Ended                                // the worker has returned, the registration stands
    | Draining(chainOpen: bool)
    | Broken(permanent: bool)              // chain closed after a failure, token still live
    | Settled                              // token cancelled after a session
    | Failed(permanent: bool)
    | Waiting
    | Leaving
    | Done

  datatype Proto = Proto(
    phase: Phase, attempt: nat, next: nat, cancelled: bool, token: bool, gate: Option<(string, nat)>, conns: nat,
    announced: nat)

  const INITIAL := Proto(Idle, 1, 1, false, false, None, 0, 0)

  function Published(policy: RetryPolicy, p: Proto, state: SupervisorState): Option<Proto> {
    match state
    case Connecting(attempt) =>
      if p.phase.Idle? && !p.cancelled && attempt == p.attempt
      then Some(p.(phase := Announced, announced := p.announced + 1)) else None
    case Reconnecting(attempt, delay, _) =>
      if p.phase == Failed(false) && attempt == p.attempt && Retry.WithinJitter(policy, attempt, delay)
      then Some(p.(phase := Waiting)) else None
    case Blocked(_) =>
      if p.phase == Failed(true) then Some(p.(phase := Waiting)) else None
    case Healthy(_, port) =>
      // the port shown is the registered one; what a session's own ping says is relayed only until cancellation
      if p.phase.Serving? && !p.phase.told.Current? && (p.phase.told.Pending? ==> !p.cancelled)
         && p.phase.failures == 0 && p.gate.Some? && port == Some(p.gate.value.1)
      then Some(p.(phase := Serving(0, Current))) else None
    case Degraded(failures, _) =>
      if p.phase.Serving? && p.phase.told.Pending? && !p.cancelled
         && 0 < failures == p.phase.failures < L.PING_FAILURE_LIMIT
      then Some(p.(phase := Serving(failures, Current))) else None
    case Stopped =>
      if p.phase.Leaving? then Some(p.(phase := Done)) else None
  }

  function Post(policy: RetryPolicy, p: Proto, a: Action): Option<Proto> {
    match a
    case Cancelled => if !p.cancelled && !p.phase.Done? then Some(p.(cancelled := true)) else None
    case Publish(state) => Published(policy, p, state)
    case TokenMade => if p.phase.Announced? && !p.token then Some(p.(phase := Armed, token := true)) else None
    case DialStarted => if p.phase.Armed? && !p.cancelled then Some(p.(phase := Dialing)) else None
    case DialEnded(result) =>
      if p.phase.Dialing? && !p.cancelled
      then Some(p.(phase := if result.ChainUp? then Linked else Broken(result.Refused?))) else None
    case FirstPing(ok) => if p.phase.Linked? then Some(p.(phase := if ok then Ready else Faulty(false))) else None
    case Registered(host, port) =>
      if p.phase.Ready? && p.gate.None? && port != 0
      then Some(p.(phase := Serving(0, Fresh), gate := Some((host, port)))) else None
    case NotRegistered(permanent) => if p.phase.Ready? then Some(p.(phase := Faulty(permanent))) else None
    case ChannelAccepted(host, port) => if p.gate == Some((host, port)) then Some(p) else None
    case HealthPing(ok) =>
      if p.phase.Serving? && p.phase.told.Current? && !p.cancelled
      then
        var failures := HealthLoop.NextFailures(p.phase.failures, ok);
        Some(p.(phase := Serving(if failures.Some? then failures.value else L.PING_FAILURE_LIMIT, Pending)))
      else None
    case WorkerEnded =>
      if p.phase.Serving? && !p.phase.told.Fresh?
         && (p.phase.told.Current? || p.cancelled || p.phase.failures == L.PING_FAILURE_LIMIT)
      then Some(p.(phase := Ended)) else None
    case Unregistered => if p.phase.Ended? then Some(p.(phase := Draining(true), gate := None)) else None
    case ChainClosed =>
      if p.phase.Faulty? then Some(p.(phase := Broken(p.phase.permanent)))
      else if p.phase == Draining(true) && p.conns == 0 then Some(p.(phase := Draining(false)))
      else None
    case TokenCancelled =>
      if !p.token then None
      else if p.phase.Broken?
      then Some(p.(phase := Failed(p.phase.permanent), token := false, next := Retry.NextAttempt(p.attempt)))
      else if p.phase == Draining(false) then Some(p.(phase := Settled, token := false))
      else if (p.phase.Armed? || p.phase.Dialing?) && p.cancelled then Some(p.(phase := Leaving, token := false))
      else None
    case Measured(lifetime) =>
      if p.phase.Settled? && !p.cancelled
      then
        var attempt := if Retry.ShouldReset(policy, lifetime) then 1 else Retry.NextAttempt(p.attempt);
        Some(p.(phase := Failed(false), attempt := attempt, next := attempt))
      else None
    case Waited => if p.phase.Waiting? && !p.cancelled then Some(p.(phase := Idle, attempt := p.next)) else None
    case LoopLeft =>
      if p.cancelled && (p.phase.Idle? || p.phase.Settled? || p.phase.Waiting?)
      then Some(p.(phase := Leaving)) else None
    case ConnTaken =>
      if p.phase.Serving? && p.phase.told.Current? && !p.cancelled && p.conns < MAX_CONNECTIONS
      then Some(p.(conns := p.conns + 1)) else None
    case ConnJoined => if p.conns > 0 then Some(p.(conns := p.conns - 1)) else None
  }

  function Replay(policy: RetryPolicy, trace: seq<Action>): Option<Proto> {
    if |trace| == 0 then Some(INITIAL)
    else
      var p := Replay(policy, trace[..|trace| - 1]);
      if p.None? then None else Post(policy, p.value, trace[|trace| - 1])
  }

  ghost predicate Accepted(policy: RetryPolicy, trace: seq<Action>) {
    Replay(policy, trace).Some?
  }

  function At(policy: RetryPolicy, trace: seq<Action>, n: nat): Proto
    requires n <= |trace| && Replay(policy, trace[..n]).Some?
  {
    Replay(policy, trace[..n]).value
  }

  lemma {:induction false} Prefix(policy: RetryPolicy, trace: seq<Action>, n: nat)
    requires n <= |trace| && Accepted(policy, trace)
    ensures Accepted(policy, trace[..n])
    ensures n < |trace| ==>
      Accepted(policy, trace[..n + 1])
      && Post(policy, At(policy, trace, n), trace[n]) == Some(At(policy, trace, n + 1))
    decreases |trace|
  {
    if n < |trace| {
      var init := trace[..|trace| - 1];
      if n < |init| {
        Prefix(policy, init, n);
        assert init[..n] == trace[..n] && init[..n + 1] == trace[..n + 1];
      } else {
        assert trace[..n] == init && trace[..n + 1] == trace;
      }
    } else {
      assert trace[..n] == trace;
    }
  }

  // ----- the invariant -----

  predicate Sound(p: Proto) {
    && 1 <= p.attempt && 1 <= p.next
    && (p.token <==> p.phase.Armed? || p.phase.Dialing? || p.phase.Linked? || p.phase.Faulty? || p.phase.Ready?
                     || p.phase.Serving? || p.phase.Ended? || p.phase.Draining? || p.phase.Broken?)
    && (p.gate.Some? <==> p.phase.Serving? || p.phase.Ended?)
    && (p.conns > 0 ==> p.phase.Serving? || p.phase.Ended? || p.phase == Draining(true))
    && (p.phase.Leaving? || p.phase.Done? ==> p.cancelled)
    && p.conns <= 64
    && (p.phase.Serving? ==>
          && p.phase.failures <= L.PING_FAILURE_LIMIT
          && (p.phase.failures == L.PING_FAILURE_LIMIT ==> p.phase.told.Pending?)
          && (p.phase.told.Fresh? ==> p.phase.failures == 0))
  }

  lemma PostKeepsSound(policy: RetryPolicy, p: Proto, a: Action)
    requires Sound(p) && Post(policy, p, a).Some?
    ensures Sound(Post(policy, p, a).value)
  {
  }

  /** At every point of every run: a registration is held only under a live session token. */
  lemma {:induction false} AlwaysSound(policy: RetryPolicy, trace: seq<Action>)
    requires Accepted(policy, trace)
    ensures Sound(Replay(policy, trace).value)
  {
    if |trace| > 0 {
      AlwaysSound(policy, trace[..|trace| - 1]);
      PostKeepsSound(policy, Replay(policy, trace[..|trace| - 1]).value, trace[|trace| - 1]);
    }
  }

  lemma Extend(policy: RetryPolicy, trace: seq<Action>, a: Action)
    requires Accepted(policy, trace) && Post(policy, Replay(policy, trace).value, a).Some?
    ensures Replay(policy, trace + [a]) == Post(policy, Replay(policy, trace).value, a)
  {
    assert (trace + [a])[..|trace|] == trace;
  }

  // ----- tokens -----

  function Made(trace: seq<Action>): nat {
    if |trace| == 0 then 0 else Made(trace[..|trace| - 1]) + if trace[|trace| - 1].TokenMade? then 1 else 0
  }

  function CancelledTokens(trace: seq<Action>): nat {
    if |trace| == 0 then 0
    else CancelledTokens(trace[..|trace| - 1]) + if trace[|trace| - 1].TokenCancelled? then 1 else 0
  }

  /** Every session token but the live one has been cancelled exactly once. */
  lemma {:induction false} TokensAreCancelled(policy: RetryPolicy, trace: seq<Action>)
    requires Accepted(policy, trace)
    ensures Made(trace) == CancelledTokens(trace) + if Replay(policy, trace).value.token then 1 else 0
  {
    if |trace| > 0 {
      TokensAreCancelled(policy, trace[..|trace| - 1]);
    }
  }

  /** Before the next attempt, and before the task returns, the previous attempt's token has been cancelled. */
  lemma TokenCancelledBeforeNext(policy: RetryPolicy, trace: seq<Action>, j: nat)
    requires Accepted(policy, trace) && j < |trace| && (trace[j].TokenMade? || trace[j] == Publish(Stopped))
    ensures Made(trace[..j]) == CancelledTokens(trace[..j])
  {
    Prefix(policy, trace, j);
    AlwaysSound(policy, trace[..j]);
    TokensAreCancelled(policy, trace[..j]);
  }

  // ----- registrations -----

  /** While a registration stands, the gate shows it. */
  lemma {:induction false} StaysRegistered(policy: RetryPolicy, trace: seq<Action>, i: nat, n: nat)
    requires Accepted(policy, trace) && i < n <= |trace| && trace[i].Registered?
    requires forall k | i < k < n :: !trace[k].Unregistered?
    ensures Accepted(policy, trace[..n])
    ensures At(policy, trace, n).gate == Some((trace[i].host, trace[i].port))
    decreases n
  {
    Prefix(policy, trace, n - 1);
    if i < n - 1 {
      StaysRegistered(policy, trace, i, n - 1);
      AlwaysSound(policy, trace[..n - 1]);
      GateStep(policy, At(policy, trace, n - 1), trace[n - 1], At(policy, trace, n));
    }
  }

  lemma GateStep(policy: RetryPolicy, p: Proto, a: Action, p': Proto)
    requires Sound(p) && Post(policy, p, a) == Some(p')
    ensures p.gate.Some? && !a.Unregistered? ==> p'.gate == p.gate
    ensures a.Unregistered? ==> p'.gate.None?
    ensures p.gate.None? && p'.gate.Some? ==> a.Registered? && p'.gate == Some((a.host, a.port))
    ensures p.gate.Some? ==> !a.ChainClosed? && !a.TokenCancelled? && !a.Registered? && a != Publish(Stopped)
  {
  }

  /**
    A registration is given back before anything else ends: between Registered and the next closing of the
    chain, cancelling of the token, new registration or end of the task, the cancel request is sent.
  */
  lemma RegistrationIsCancelledFirst(policy: RetryPolicy, trace: seq<Action>, i: nat, j: nat)
    requires Accepted(policy, trace) && i < j < |trace| && trace[i].Registered?
    requires trace[j].ChainClosed? || trace[j].TokenCancelled? || trace[j].Registered? || trace[j] == Publish(Stopped)
    ensures exists k :: i < k < j && trace[k].Unregistered?
  {
    if forall k | i < k < j :: !trace[k].Unregistered? {
      StaysRegistered(policy, trace, i, j);
      Prefix(policy, trace, j);
      AlwaysSound(policy, trace[..j]);
      GateStep(policy, At(policy, trace, j), trace[j], At(policy, trace, j + 1));
      assert false;
    }
  }

  /** The registration that opened the gate seen after n actions. */
  lemma {:induction false} OpenGateWasRegistered(policy: RetryPolicy, trace: seq<Action>, n: nat) returns (i: nat)
    requires Accepted(policy, trace) && n <= |trace|
    requires Accepted(policy, trace[..n]) && At(policy, trace, n).gate.Some?
    ensures i < n && trace[i].Registered? && At(policy, trace, n).gate == Some((trace[i].host, trace[i].port))
    ensures forall k | i < k < n :: !trace[k].Unregistered?
    decreases n
  {
    assert n > 0;
    Prefix(policy, trace, n - 1);
    AlwaysSound(policy, trace[..n - 1]);
    GateStep(policy, At(policy, trace, n - 1), trace[n - 1], At(policy, trace, n));
    if At(policy, trace, n - 1).gate.Some? {
      i := OpenGateWasRegistered(policy, trace, n - 1);
    } else {
      i := n - 1;
    }
  }

  /** A forwarded channel is accepted only at the address and port of a standing registration. */
  lemma ChannelsNeedRegistration(policy: RetryPolicy, trace: seq<Action>, j: nat) returns (i: nat)
    requires Accepted(policy, trace) && j < |trace| && trace[j].ChannelAccepted?
    ensures i < j && trace[i] == Registered(trace[j].host, trace[j].port)
    ensures forall k | i < k < j :: !trace[k].Unregistered?
  {
    Prefix(policy, trace, j);
    i := OpenGateWasRegistered(policy, trace, j);
  }

  // ----- cancellation and the end -----

  lemma {:induction false} StaysCancelled(policy: RetryPolicy, trace: seq<Action>, i: nat, n: nat)
    requires Accepted(policy, trace) && i < n <= |trace| && trace[i].Cancelled?
    ensures Accepted(policy, trace[..n]) && At(policy, trace, n).cancelled
    decreases n
  {
    Prefix(policy, trace, n - 1);
    if i < n - 1 {
      StaysCancelled(policy, trace, i, n - 1);
    }
  }

  /** Own actions left to a cancelled task. */
  function Remaining(p: Proto): nat {
    p.conns +
    match p.phase
    case Done => 0
    case Leaving => 1
    case Idle => 2
    case Settled => 2
    case Waiting => 2
    case Failed(_) => 3
    case Broken(_) => 4
    case Armed => 2
    case Announced => 3
    case Dialing => 2
    case Faulty(_) => 5
    case Draining(open) => if open then 4 else 3
    case Ended => 5
    case Serving(_, told) => if told.Current? then 6 else 7
    case Ready => 8
    case Linked => 9
  }

  lemma CancelledMakesProgress(policy: RetryPolicy, p: Proto, a: Action, p': Proto)
    requires Sound(p) && p.cancelled && Post(policy, p, a) == Some(p')
    ensures p'.cancelled && !a.DialStarted? && !a.ConnTaken? && !a.Waited?
    ensures a.Publish? ==> !a.state.Connecting?
    ensures if a.ChannelAccepted? then p' == p else Remaining(p') < Remaining(p)
  {
  }

  function OwnActions(trace: seq<Action>, lo: nat, hi: nat): nat
    requires lo <= hi <= |trace|
    decreases hi
  {
    if lo == hi then 0 else OwnActions(trace, lo, hi - 1) + if trace[hi - 1].ChannelAccepted? then 0 else 1
  }

  lemma CancelledStep(policy: RetryPolicy, trace: seq<Action>, i: nat, j: nat)
    requires Accepted(policy, trace) && i < j < |trace| && trace[i].Cancelled?
    ensures Accepted(policy, trace[..j]) && Accepted(policy, trace[..j + 1])
    ensures Remaining(At(policy, trace, j + 1)) + (if trace[j].ChannelAccepted? then 0 else 1)
            <= Remaining(At(policy, trace, j))
  {
    StaysCancelled(policy, trace, i, j);
    Prefix(policy, trace, j);
    AlwaysSound(policy, trace[..j]);
    CancelledMakesProgress(policy, At(policy, trace, j), trace[j], At(policy, trace, j + 1));
  }

  lemma {:induction false} CancelledRunIsShort(policy: RetryPolicy, trace: seq<Action>, i: nat, n: nat)
    requires Accepted(policy, trace) && i < n <= |trace| && trace[i].Cancelled?
    ensures Accepted(policy, trace[..n]) && Accepted(policy, trace[..i + 1])
    ensures OwnActions(trace, i + 1, n) + Remaining(At(policy, trace, n)) <= Remaining(At(policy, trace, i + 1))
    decreases n
  {
    Prefix(policy, trace, i);
    if i + 1 < n {
      CancelledRunIsShort(policy, trace, i, n - 1);
      CancelledStep(policy, trace, i, n - 1);
    }
  }

  /** Once cancelled, the run ends within 9 more own actions plus one for each connection still to be joined. */
  lemma CancelledRunBound(policy: RetryPolicy, trace: seq<Action>, i: nat)
    requires Accepted(policy, trace) && i < |trace| && trace[i].Cancelled?
    ensures OwnActions(trace, i + 1, |trace|) <= 9 + MAX_CONNECTIONS
  {
    CancelledRunIsShort(policy, trace, i, |trace|);
    Prefix(policy, trace, i);
    AlwaysSound(policy, trace[..i + 1]);
  }

  /** A cancelled task is never stuck before it is done: one of its own actions is possible. */
  lemma CancelledCanMove(policy: RetryPolicy, p: Proto) returns (a: Action)
    requires Sound(p) && p.cancelled && !p.phase.Done?
    ensures !a.Cancelled? && !a.ChannelAccepted? && Post(policy, p, a).Some?
  {
    var delay := Retry.SomeDelayFits(policy, p.attempt);
    a := match p.phase
         case Leaving => Publish(Stopped)
         case Idle => LoopLeft
         case Settled => LoopLeft
         case Waiting => LoopLeft
         case Failed(permanent) =>
           if permanent then Publish(Blocked(Failure("")))
           else Publish(Reconnecting(p.attempt, delay, Failure("")))
         case Broken(_) => TokenCancelled
         case Armed => TokenCancelled
         case Announced => TokenMade
         case Dialing => TokenCancelled
         case Linked => FirstPing(false)
         case Faulty(_) => ChainClosed
         case Ready => NotRegistered(false)
         case Serving(_, told) => if told.Fresh? then Publish(Healthy([], Some(p.gate.value.1))) else WorkerEnded
         case Ended => Unregistered
         case Draining(open) => if p.conns > 0 then ConnJoined else if open then ChainClosed else TokenCancelled
         case Done => LoopLeft;
  }

  lemma CancelledStepOn(policy: RetryPolicy, trace: seq<Action>) returns (a: Action)
    requires Accepted(policy, trace)
    requires Replay(policy, trace).value.cancelled && !Replay(policy, trace).value.phase.Done?
    ensures Accepted(policy, trace + [a]) && Replay(policy, trace + [a]).value.cancelled
    ensures Remaining(Replay(policy, trace + [a]).value) < Remaining(Replay(policy, trace).value)
  {
    AlwaysSound(policy, trace);
    var p := Replay(policy, trace).value;
    a := CancelledCanMove(policy, p);
    Extend(policy, trace, a);
    CancelledMakesProgress(policy, p, a, Post(policy, p, a).value);
  }

  lemma Regroup(trace: seq<Action>, a: Action, rest: seq<Action>)
    ensures trace + [a] + rest == trace + ([a] + rest)
  {
  }

  /** Left alone, a cancelled task publishes Stopped after a bounded number of actions, from wherever it is. */
  lemma {:induction false} CancelledRunFinishes(policy: RetryPolicy, trace: seq<Action>) returns (more: seq<Action>)
    requires Accepted(policy, trace) && Replay(policy, trace).value.cancelled
    ensures |more| <= Remaining(Replay(policy, trace).value)
    ensures Accepted(policy, trace + more) && Replay(policy, trace + more).value.phase.Done?
    decreases Remaining(Replay(policy, trace).value)
  {
    if Replay(policy, trace).value.phase.Done? {
      more := [];
      assert trace + more == trace;
    } else {
      var a := CancelledStepOn(policy, trace);
      var rest := CancelledRunFinishes(policy, trace + [a]);
      more := [a] + rest;
      Regroup(trace, a, rest);
    }
  }

  /** Once cancelled: no new connection attempt, relayed connection or retry. */
  lemma NothingNewAfterCancel(policy: RetryPolicy, trace: seq<Action>, i: nat, j: nat)
    requires Accepted(policy, trace) && i < j < |trace| && trace[i].Cancelled?
    ensures !trace[j].DialStarted? && !trace[j].ConnTaken? && !trace[j].Waited?
    ensures trace[j].Publish? ==> !trace[j].state.Connecting?
  {
    StaysCancelled(policy, trace, i, j);
    Prefix(policy, trace, j);
    AlwaysSound(policy, trace[..j]);
    CancelledMakesProgress(policy, At(policy, trace, j), trace[j], At(policy, trace, j + 1));
  }

  /** Stopped comes last, with no registration, no token, no connection left. */
  lemma StoppedIsLast(policy: RetryPolicy, trace: seq<Action>, i: nat)
    requires Accepted(policy, trace) && i < |trace| && trace[i] == Publish(Stopped)
    ensures i == |trace| - 1
    ensures var p := Replay(policy, trace).value;
            p.phase.Done? && p.cancelled && !p.token && p.gate.None? && p.conns == 0
  {
    Prefix(policy, trace, i);
    AlwaysSound(policy, trace[..i + 1]);
    if i + 1 < |trace| {
      Prefix(policy, trace, i + 1);
      DoneIsFinal(policy, At(policy, trace, i + 1), trace[i + 1]);
    } else {
      assert trace[..i + 1] == trace;
    }
  }

  lemma DoneIsFinal(policy: RetryPolicy, p: Proto, a: Action)
    requires Sound(p) && p.phase.Done?
    ensures Post(policy, p, a).None?
  {
  }

  // ----- retry attempts -----

  predicate Announces(a: Action) { a.Publish? && a.state.Connecting? }

  predicate LongLived(policy: RetryPolicy, a: Action) {
    a.Measured? && a.lifetime >= policy.resetAfterHealthy
  }

  predicate Pursues(p: Proto, a: nat, reset: bool) {
    match p.phase
    case Idle => p.attempt == if reset then 1 else Retry.NextAttempt(a)
    case Waiting => p.next == if reset then 1 else Retry.NextAttempt(a)
    case Failed(_) => p.next == if reset then 1 else Retry.NextAttempt(a)
    case Leaving => true
    case Done => true
    case _ => !reset && p.attempt == a
  }

  predicate WasLongLived(policy: RetryPolicy, trace: seq<Action>, i: nat, n: nat)
    requires n <= |trace|
    decreases n
  {
    i + 1 < n && (WasLongLived(policy, trace, i, n - 1) || LongLived(policy, trace[n - 1]))
  }

  lemma {:induction false} WasLongLivedMeans(policy: RetryPolicy, trace: seq<Action>, i: nat, n: nat)
    requires n <= |trace|
    ensures WasLongLived(policy, trace, i, n) <==> exists k :: i < k < n && LongLived(policy, trace[k])
    decreases n
  {
    if i + 1 < n {
      WasLongLivedMeans(policy, trace, i, n - 1);
    }
  }

  lemma PursuesStep(policy: RetryPolicy, p: Proto, a: Action, p': Proto, attempt: nat, reset: bool)
    requires Post(policy, p, a) == Some(p') && !Announces(a) && Pursues(p, attempt, reset)
    ensures Pursues(p', attempt, reset || LongLived(policy, a))
  {
  }

  lemma {:induction false} PursuesAttempt(policy: RetryPolicy, trace: seq<Action>, i: nat, n: nat)
    requires Accepted(policy, trace) && i < n <= |trace| && Announces(trace[i])
    requires forall k | i < k < n :: !Announces(trace[k])
    ensures Accepted(policy, trace[..n])
    ensures Pursues(At(policy, trace, n), trace[i].state.attempt, WasLongLived(policy, trace, i, n))
    decreases n
  {
    Prefix(policy, trace, n - 1);
    if i + 1 < n {
      PursuesAttempt(policy, trace, i, n - 1);
      PursuesStep(policy, At(policy, trace, n - 1), trace[n - 1], At(policy, trace, n), trace[i].state.attempt,
                  WasLongLived(policy, trace, i, n - 1));
    }
  }

  /** From one announced attempt to the next: up by one (saturating), or back to 1 exactly after a long session. */
  lemma AttemptsCountUp(policy: RetryPolicy, trace: seq<Action>, i: nat, j: nat)
    requires Accepted(policy, trace) && i < j < |trace| && Announces(trace[i]) && Announces(trace[j])
    requires forall k | i < k < j :: !Announces(trace[k])
    ensures trace[j].state.attempt ==
            if exists k :: i < k < j && LongLived(policy, trace[k]) then 1
            else Min(trace[i].state.attempt + 1, 0xFFFF_FFFF)
    ensures trace[j].state.attempt >= 1
  {
    Prefix(policy, trace, j);
    AlwaysSound(policy, trace[..j]);
    PursuesAttempt(policy, trace, i, j);
    WasLongLivedMeans(policy, trace, i, j);
  }

  /** Every attempt number fits 32 bits, and the next is not below the current. */
  predicate Rising(p: Proto) {
    && p.attempt <= Retry.U32_MAX && p.next <= Retry.U32_MAX
    && (p.phase.Failed? || p.phase.Waiting? ==> p.attempt <= p.next)
  }

  lemma RisingStep(policy: RetryPolicy, p: Proto, a: Action)
    requires Rising(p) && Post(policy, p, a).Some?
    ensures Rising(Post(policy, p, a).value)
    ensures !LongLived(policy, a) ==> p.attempt <= Post(policy, p, a).value.attempt
  {
  }

  lemma {:induction false} AlwaysRising(policy: RetryPolicy, trace: seq<Action>)
    requires Accepted(policy, trace)
    ensures Rising(Replay(policy, trace).value)
  {
    if |trace| > 0 {
      AlwaysRising(policy, trace[..|trace| - 1]);
      RisingStep(policy, Replay(policy, trace[..|trace| - 1]).value, trace[|trace| - 1]);
    }
  }

  lemma {:induction false} AttemptsRise(policy: RetryPolicy, trace: seq<Action>, i: nat, n: nat)
    requires Accepted(policy, trace) && i <= n <= |trace|
    requires forall k | i <= k < n :: !LongLived(policy, trace[k])
    ensures Accepted(policy, trace[..i]) && Accepted(policy, trace[..n])
    ensures At(policy, trace, i).attempt <= At(policy, trace, n).attempt
    decreases n
  {
    Prefix(policy, trace, n);
    if i < n {
      Prefix(policy, trace, n - 1);
      AttemptsRise(policy, trace, i, n - 1);
      AlwaysRising(policy, trace[..n - 1]);
      RisingStep(policy, At(policy, trace, n - 1), trace[n - 1]);
    }
  }

  predicate Retries(a: Action) { a.Publish? && a.state.Reconnecting? }

  /** Between two long sessions the delays do not shrink, jitter aside, however the attempts fail. */
  lemma DelaysNeverShrink(policy: RetryPolicy, trace: seq<Action>, i: nat, j: nat)
    requires Retry.Representable(policy) && Accepted(policy, trace) && i < j < |trace|
    requires Retries(trace[i]) && Retries(trace[j]) && forall k | i < k < j :: !LongLived(policy, trace[k])
    ensures trace[i].state.attempt <= trace[j].state.attempt
    ensures Retry.Unjittered(policy, trace[i].state.attempt) <= Retry.Unjittered(policy, trace[j].state.attempt)
  {
    AttemptsRise(policy, trace, i, j);
    Prefix(policy, trace, i);
    Prefix(policy, trace, j);
    Retry.UnjitteredGrows(policy, trace[i].state.attempt, trace[j].state.attempt);
  }

  /** An attempt has been announced, and has not been dialed to the end. */
  predicate Undialed(p: Proto) {
    p.phase.Announced? || p.phase.Armed? || p.phase.Dialing? || p.phase.Leaving? || p.phase.Done?
  }

  lemma UndialedStep(policy: RetryPolicy, p: Proto, a: Action, p': Proto)
    requires Post(policy, p, a) == Some(p') && !a.DialEnded?
    requires Announces(a) || Undialed(p)
    ensures Undialed(p')
  {
  }

  lemma {:induction false} NotYetDialed(policy: RetryPolicy, trace: seq<Action>, i: nat, n: nat)
    requires Accepted(policy, trace) && i < n <= |trace| && Announces(trace[i])
    requires forall k | i < k < n :: !trace[k].DialEnded?
    ensures Accepted(policy, trace[..n]) && Undialed(At(policy, trace, n))
    decreases n
  {
    Prefix(policy, trace, n - 1);
    if i + 1 < n {
      NotYetDialed(policy, trace, i, n - 1);
    }
    UndialedStep(policy, At(policy, trace, n - 1), trace[n - 1], At(policy, trace, n));
  }

  function Attempts(trace: seq<Action>): nat {
    if |trace| == 0 then 0 else Attempts(trace[..|trace| - 1]) + if Announces(trace[|trace| - 1]) then 1 else 0
  }

  lemma {:induction false} AnnouncementsAreCounted(policy: RetryPolicy, trace: seq<Action>)
    requires Accepted(policy, trace)
    ensures Replay(policy, trace).value.announced == Attempts(trace)
  {
    if |trace| > 0 {
      AnnouncementsAreCounted(policy, trace[..|trace| - 1]);
      CountStep(policy, Replay(policy, trace[..|trace| - 1]).value, trace[|trace| - 1]);
    }
  }

  lemma CountStep(policy: RetryPolicy, p: Proto, a: Action)
    requires Post(policy, p, a).Some?
    ensures Post(policy, p, a).value.announced == p.announced + if Announces(a) then 1 else 0
  {
  }

  /** Between announcing an attempt and announcing the next, the connector has given its answer. */
  lemma EveryRoundDials(policy: RetryPolicy, trace: seq<Action>, i: nat, j: nat)
    requires Accepted(policy, trace) && i < j < |trace| && Announces(trace[i]) && Announces(trace[j])
    ensures exists k :: i < k < j && trace[k].DialEnded?
  {
    if forall k | i < k < j :: !trace[k].DialEnded? {
      NotYetDialed(policy, trace, i, j);
      Prefix(policy, trace, j);
      assert false;
    }
  }

  /** Every published reconnect delay belongs to the attempt it names. */
  lemma PublishedDelayFits(policy: RetryPolicy, trace: seq<Action>, i: nat)
    requires Accepted(policy, trace) && i < |trace| && Retries(trace[i])
    ensures trace[i].state.attempt >= 1
    ensures Retry.WithinJitter(policy, trace[i].state.attempt, trace[i].state.delayMs)
  {
    Prefix(policy, trace, i);
    AlwaysSound(policy, trace[..i]);
  }

  // ----- why a failure is shown as Blocked -----

  /** An action that decides how the attempt goes on. */
  predicate Ends(a: Action) { a.DialEnded? || a.FirstPing? || a.NotRegistered? || a.WorkerEnded? }

  predicate Refuses(a: Action) { a == DialEnded(Refused) || a == NotRegistered(true) }

  predicate Fails(a: Action) {
    Refuses(a) || a == DialEnded(Unreachable) || a == FirstPing(false) || a == NotRegistered(false) || a.WorkerEnded?
  }

  /** A failure shown as this phase shows it, and no other, comes from `a`. */
  predicate Caused(a: Action, phase: Phase) {
    match phase
    case Failed(permanent) => Fails(a) && (permanent <==> Refuses(a))
    case Broken(permanent) => Fails(a) && !a.WorkerEnded? && (permanent <==> Refuses(a))
    case Faulty(permanent) => (a == FirstPing(false) || a.NotRegistered?) && (permanent <==> Refuses(a))
    case Ended => a.WorkerEnded?
    case Draining(_) => a.WorkerEnded?
    case Settled => a.WorkerEnded?
    case _ => false
  }

  predicate Failing(phase: Phase) {
    phase.Failed? || phase.Broken? || phase.Faulty? || phase.Ended? || phase.Draining? || phase.Settled?
  }

  lemma CauseStep(policy: RetryPolicy, p: Proto, a: Action, p': Proto)
    requires Post(policy, p, a) == Some(p') && Failing(p'.phase)
    ensures if Ends(a) then Caused(a, p'.phase)
            else Failing(p.phase) && forall end :: Caused(end, p.phase) ==> Caused(end, p'.phase)
  {
  }

  lemma {:induction false} FailureHasCause(policy: RetryPolicy, trace: seq<Action>, n: nat) returns (k: nat)
    requires Accepted(policy, trace) && n <= |trace| && Accepted(policy, trace[..n])
    requires Failing(At(policy, trace, n).phase)
    ensures k < n && Caused(trace[k], At(policy, trace, n).phase)
    ensures forall j | k < j < n :: !Ends(trace[j])
    decreases n
  {
    assert n > 0;
    Prefix(policy, trace, n - 1);
    CauseStep(policy, At(policy, trace, n - 1), trace[n - 1], At(policy, trace, n));
    k := n - 1;
    if !Ends(trace[n - 1]) {
      k := FailureHasCause(policy, trace, n - 1);
    }
  }

  /**
    Of the failures shown, those with a permanent cause are shown as Blocked, and only those: the last thing that ended
    an attempt was a refused dial or registration, never a failed first ping or a served session.
  */
  lemma BlockedExactlyWhenRefused(policy: RetryPolicy, trace: seq<Action>, i: nat) returns (k: nat)
    requires Accepted(policy, trace) && i < |trace|
    requires trace[i].Publish? && (trace[i].state.Blocked? || trace[i].state.Reconnecting?)
    ensures k < i && forall j | k < j < i :: !Ends(trace[j])
    ensures if trace[i].state.Blocked? then trace[k] == DialEnded(Refused) || trace[k] == NotRegistered(true)
            else trace[k] == DialEnded(Unreachable) || trace[k] == NotRegistered(false) || trace[k] == FirstPing(false)
                 || trace[k].WorkerEnded?
  {
    Prefix(policy, trace, i);
    k := FailureHasCause(policy, trace, i);
  }

  // ----- health published after cancellation -----

  predicate ShowsHealthy(a: Action) { a.Publish? && a.state.Healthy? }

  /** A session is being opened, or its first Healthy has not been shown yet. */
  predicate HealthyIsDue(p: Proto) {
    p.phase.Linked? || p.phase.Ready? || (p.phase.Serving? && p.phase.told.Fresh?)
  }

  lemma HealthyStaysOut(policy: RetryPolicy, p: Proto, a: Action, p': Proto)
    requires Sound(p) && p.cancelled && Post(policy, p, a) == Some(p')
    ensures p'.cancelled
    ensures !HealthyIsDue(p) ==> !ShowsHealthy(a) && !HealthyIsDue(p')
    ensures ShowsHealthy(a) ==> !HealthyIsDue(p')
  {
  }

  /** Cancelled, with no Healthy left to be shown. */
  ghost predicate Cold(policy: RetryPolicy, trace: seq<Action>) {
    && Accepted(policy, trace)
    && Replay(policy, trace).value.cancelled && !HealthyIsDue(Replay(policy, trace).value)
  }

  lemma ColdStep(policy: RetryPolicy, trace: seq<Action>, j: nat)
    requires Accepted(policy, trace) && j < |trace| && Cold(policy, trace[..j])
    ensures !ShowsHealthy(trace[j]) && Cold(policy, trace[..j + 1])
  {
    Prefix(policy, trace, j);
    AlwaysSound(policy, trace[..j]);
    HealthyStaysOut(policy, At(policy, trace, j), trace[j], At(policy, trace, j + 1));
  }

  lemma {:induction false} NoHealthyFollows(policy: RetryPolicy, trace: seq<Action>, i: nat, n: nat)
    requires Accepted(policy, trace) && i <= n <= |trace| && Cold(policy, trace[..i])
    ensures Cold(policy, trace[..n])
    ensures forall k | i <= k < n :: !ShowsHealthy(trace[k])
    decreases n
  {
    if i < n {
      NoHealthyFollows(policy, trace, i, n - 1);
      ColdStep(policy, trace, n - 1);
    }
  }

  lemma HealthyFollows(policy: RetryPolicy, trace: seq<Action>) returns (more: seq<Action>)
    requires Accepted(policy, trace) && HealthyIsDue(Replay(policy, trace).value)
    ensures |more| > 0 && Accepted(policy, trace + more) && ShowsHealthy(more[|more| - 1])
  {
    AlwaysSound(policy, trace);
    more := [];
    var all := trace;
    if Replay(policy, all).value.phase.Linked? {
      Extend(policy, all, FirstPing(true));
      more, all := more + [FirstPing(true)], all + [FirstPing(true)];
    }
    if Replay(policy, all).value.phase.Ready? {
      AlwaysSound(policy, all);
      Extend(policy, all, Registered("", 80));
      more, all := more + [Registered("", 80)], all + [Registered("", 80)];
    }
    AlwaysSound(policy, all);
    var healthy := Publish(Healthy([], Some(Replay(policy, all).value.gate.value.1)));
    Extend(policy, all, healthy);
    assert all + [healthy] == trace + (more + [healthy]);
    more := more + [healthy];
  }

  /** Healthy is still shown in some continuation. */
  ghost predicate HealthyCanFollow(policy: RetryPolicy, trace: seq<Action>) {
    exists more: seq<Action> :: |more| > 0 && Accepted(policy, trace + more) && ShowsHealthy(more[|more| - 1])
  }

  /** After cancellation Healthy can still be published exactly when a session was being opened when Stop came. */
  lemma HealthyAfterCancelExactlyWhen(policy: RetryPolicy, trace: seq<Action>)
    requires Accepted(policy, trace) && Replay(policy, trace).value.cancelled
    ensures HealthyCanFollow(policy, trace) <==> HealthyIsDue(Replay(policy, trace).value)
  {
    if HealthyIsDue(Replay(policy, trace).value) {
      var more := HealthyFollows(policy, trace);
    }
    forall more: seq<Action> | |more| > 0 && Accepted(policy, trace + more) && Cold(policy, trace)
      ensures !ShowsHealthy(more[|more| - 1])
    {
      var all := trace + more;
      assert all[..|trace|] == trace;
      NoHealthyFollows(policy, all, |trace|, |all|);
      assert all[|all| - 1] == more[|more| - 1];
    }
  }

  /** After cancellation at most one health value is published. */
  lemma OneHealthValueAfterCancel(policy: RetryPolicy, trace: seq<Action>, i: nat, j: nat, k: nat)
    requires Accepted(policy, trace) && i < j < k < |trace| && trace[i].Cancelled? && ShowsHealthy(trace[j])
    ensures !ShowsHealthy(trace[k])
  {
    ColdAfterHealthy(policy, trace, i, j);
    NoHealthyFollows(policy, trace, j + 1, k + 1);
  }

  lemma ColdAfterHealthy(policy: RetryPolicy, trace: seq<Action>, i: nat, j: nat)
    requires Accepted(policy, trace) && i < j < |trace| && trace[i].Cancelled? && ShowsHealthy(trace[j])
    ensures Cold(policy, trace[..j + 1])
  {
    StaysCancelled(policy, trace, i, j);
    Prefix(policy, trace, j);
    AlwaysSound(policy, trace[..j]);
    HealthyStaysOut(policy, At(policy, trace, j), trace[j], At(policy, trace, j + 1));
  }

  /** No failed ping is shown after cancellation: the supervisor drops a ping that is still running. */
  lemma NoDegradedAfterCancel(policy: RetryPolicy, trace: seq<Action>, i: nat, j: nat)
    requires Accepted(policy, trace) && i < j < |trace| && trace[i].Cancelled?
    ensures trace[j].Publish? ==> !trace[j].state.Degraded?
  {
    StaysCancelled(policy, trace, i, j);
    Prefix(policy, trace, j);
  }

  /**
    Healthy can be published after Stop: the first ping and the registration are not raced against
    cancellation.  The registration made then is still given back.
  */
  lemma HealthyAfterCancelHappens(policy: RetryPolicy) returns (trace: seq<Action>, i: nat, j: nat)
    ensures Accepted(policy, trace) && i < j < |trace|
    ensures trace[i].Cancelled? && trace[j].Publish? && trace[j].state.Healthy?
  {
    var dialed := DialedTrace(policy);
    Extend(policy, dialed, Cancelled);
    Extend(policy, dialed + [Cancelled], FirstPing(true));
    var pinged := dialed + [Cancelled] + [FirstPing(true)];
    Extend(policy, pinged, Registered("h", 80));
    Extend(policy, pinged + [Registered("h", 80)], Publish(Healthy([], Some(80))));
    trace := pinged + [Registered("h", 80)] + [Publish(Healthy([], Some(80)))];
    i, j := |dialed|, |trace| - 1;
  }

  lemma DialedTrace(policy: RetryPolicy) returns (t: seq<Action>)
    ensures Replay(policy, t) == Some(INITIAL.(phase := Linked, token := true, announced := 1))
  {
    t := [];
    Extend(policy, t, Publish(Connecting(1)));
    t := t + [Publish(Connecting(1))];
    Extend(policy, t, TokenMade);
    t := t + [TokenMade];
    Extend(policy, t, DialStarted);
    t := t + [DialStarted];
    Extend(policy, t, DialEnded(ChainUp));
    t := t + [DialEnded(ChainUp)];
  }
}
