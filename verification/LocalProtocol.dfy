/**
  The protocol of one Local or Dynamic supervisor task, as the sequence of actions it may perform.
  `Replay` accepts or rejects a trace; the supervisor and its worker are proved to produce only
  accepted traces, and the lemmas below say what acceptance implies about every trace.
*/
module LocalProtocol {
  import opened Wrappers
  import opened Domain
  import opened SupervisorTypes
  import Retry
  import HealthLoop
  import L = LifecycleTypes

  const MAX_CLIENTS: nat := 64

  datatype Action =
    | Cancelled                            // the tunnel's token is cancelled, by Stop or by the task itself
    | Publish(state: SupervisorState)
    | DialStarted                          // the connector is polled for the first time
    | DialEnded(result: DialResult)
    | FirstPing(ok: bool)
    | HandedOver                           // the listener moves from the supervisor to a worker
    | HealthPing(ok: bool)
    | WorkerEnded(lifetime: nat)
    | ChainClosed                          // every session of the chain is disconnected
    | HandedBack                           // the listener moves back
    | Waited                               // the backoff elapsed, or a retry hint arrived
    | AcceptFailed
    | LoopLeft
    | ListenerClosed
    | ClientTaken | ClientJoined           // clients turned away while there is no healthy session
    | ConnTaken | ConnJoined               // connections relayed by the worker

  datatype Phase =
    | Idle                                 // top of the loop
    | Announced                            // Connecting published
    | Dialing
    | Linked                               // chain open, not yet pinged
    | Faulty                               // chain open, first ping failed
    | Ready                                // chain open and pinged
    | Serving(failures: nat, told: Told)
    | Draining(chainOpen: bool)            // the worker has returned
    | Failed(permanent: bool)              // no chain; failure not yet published
    | Waiting
    | Leaving
    | Released                             // the listener is closed
    | Done

  /** What of the session's health still has to be published; the result of a ping that was cut off never is. */
  datatype Told = Fresh | Current | Pending | CutOff

  datatype Owner = Supervisor | Worker | Nobody

  datatype Proto = Proto(
    phase: Phase, attempt: nat, next: nat, cancelled: bool, owner: Owner, clients: nat, conns: nat, announced: nat)

  const INITIAL := Proto(Idle, 1, 1, false, Supervisor, 0, 0, 0)

  function Published(policy: RetryPolicy, p: Proto, state: SupervisorState): Option<Proto> {
    match state
    case Connecting(attempt) =>
      if p.phase.Idle? && !p.cancelled && attempt == p.attempt
      then Some(p.(phase := Announced, announced := p.announced + 1)) else None
    case Reconnecting(attempt, delay, _) =>
      if p.phase == Failed(false) && attempt == p.attempt && Retry.WithinJitter(policy, attempt, delay)
      then Some(p.(phase := Waiting)) else None
    case Blocked(_) =>
      if p.phase == Failed(true) then Some(p.(phase := Waiting)) else None
    case Healthy(_, _) =>
      if p.phase.Serving? && (p.phase.told.Fresh? || p.phase.told.Pending?) && p.phase.failures == 0
      then Some(p.(phase := Serving(0, Current))) else None
    case Degraded(failures, _) =>
      if p.phase.Serving? && p.phase.told == Pending && 0 < failures == p.phase.failures < L.PING_FAILURE_LIMIT
      then Some(p.(phase := Serving(failures, Current))) else None
    case Stopped =>
      if p.phase.Released? then Some(p.(phase := Done)) else None
  }

  function Post(policy: RetryPolicy, p: Proto, a: Action): Option<Proto> {
    match a
    case Cancelled => if !p.cancelled && !p.phase.Done? then Some(p.(cancelled := true)) else None
    case Publish(state) => Published(policy, p, state)
    case DialStarted => if p.phase.Announced? && !p.cancelled then Some(p.(phase := Dialing)) else None
    case DialEnded(result) =>
      if p.phase.Dialing? && !p.cancelled
      then Some(if result.ChainUp? then p.(phase := Linked)
                else p.(phase := Failed(result.Refused?), next := Retry.NextAttempt(p.attempt)))
      else None
    case FirstPing(ok) =>
      // the sessions were opened under the tunnel's own token, so cancellation cuts a ping off
      if p.phase.Linked? && (ok ==> !p.cancelled) then Some(p.(phase := if ok then Ready else Faulty)) else None
    case HandedOver =>
      if p.phase.Ready? && p.owner.Supervisor? then Some(p.(phase := Serving(0, Fresh), owner := Worker)) else None
    case HealthPing(ok) =>
      // the ping has ended; each result is reported before the next ping begins
      if p.phase.Serving? && p.phase.told == Current && (ok ==> !p.cancelled)
      then
        var failures := HealthLoop.NextFailures(p.phase.failures, ok);
        Some(p.(phase := Serving(if failures.Some? then failures.value else L.PING_FAILURE_LIMIT,
                                 if p.cancelled then CutOff else Pending)))
      else None
    case WorkerEnded(lifetime) =>
      // a cancelled worker may return before its last value is relayed
      if p.phase.Serving? && !p.phase.told.Fresh?
         && (p.phase.told.Current? || p.cancelled || p.phase.failures == L.PING_FAILURE_LIMIT)
      then
        var attempt := if Retry.ShouldReset(policy, lifetime) then 1 else Retry.NextAttempt(p.attempt);
        Some(p.(phase := Draining(true), attempt := attempt, next := attempt))
      else None
    case ChainClosed =>
      if p.phase.Faulty? then Some(p.(phase := Failed(false), next := Retry.NextAttempt(p.attempt)))
      else if p.phase.Draining? && p.phase.chainOpen && p.conns == 0 then Some(p.(phase := Draining(false)))
      else None
    case HandedBack =>
      if p.phase == Draining(false) && p.owner.Worker? then Some(p.(phase := Failed(false), owner := Supervisor))
      else None
    case Waited => if p.phase.Waiting? && !p.cancelled then Some(p.(phase := Idle, attempt := p.next)) else None
    case AcceptFailed =>
      if (p.phase.Dialing? || p.phase.Waiting?) && !p.cancelled then Some(p.(phase := Leaving)) else None
    case LoopLeft =>
      if p.cancelled && (p.phase.Idle? || p.phase.Announced? || p.phase.Dialing? || p.phase.Failed? || p.phase.Waiting?)
      then Some(p.(phase := Leaving)) else None
    case ListenerClosed =>
      if p.phase.Leaving? && p.cancelled && p.owner.Supervisor? && p.clients == 0
      then Some(p.(phase := Released, owner := Nobody)) else None
    case ClientTaken =>
      if (p.phase.Dialing? || p.phase.Waiting?) && !p.cancelled && p.clients < MAX_CLIENTS
      then Some(p.(clients := p.clients + 1)) else None
    case ClientJoined => if p.clients > 0 then Some(p.(clients := p.clients - 1)) else None
    case ConnTaken =>
      if p.phase.Serving? && p.phase.told == Current && !p.cancelled && p.conns < MAX_CLIENTS
      then Some(p.(conns := p.conns + 1)) else None
    case ConnJoined => if p.conns > 0 then Some(p.(conns := p.conns - 1)) else None
  }

  function Replay(policy: RetryPolicy, trace: seq<Action>): Option<Proto> {
    if |trace| == 0 then Some(INITIAL)
    else
      var p := Replay(policy, trace[..|trace| - 1]);
      if p.None? then None else Post(policy, p.value, trace[|trace| - 1])
  }

  ghost predicate Accepted(policy: RetryPolicy, trace: seq<Action>) {
    Replay(policy, trace).Some?
  }

  /** The protocol state after the first n actions. */
  function At(policy: RetryPolicy, trace: seq<Action>, n: nat): Proto
    requires n <= |trace| && Replay(policy, trace[..n]).Some?
  {
    Replay(policy, trace[..n]).value
  }

  lemma {:induction false} Prefix(policy: RetryPolicy, trace: seq<Action>, n: nat)
    requires n <= |trace| && Accepted(policy, trace)
    ensures Accepted(policy, trace[..n])
    ensures n < |trace| ==>
      Accepted(policy, trace[..n + 1])
      && Post(policy, At(policy, trace, n), trace[n]) == Some(At(policy, trace, n + 1))
    decreases |trace|
  {
    if n < |trace| {
      var init := trace[..|trace| - 1];
      if n < |init| {
        Prefix(policy, init, n);
        assert init[..n] == trace[..n] && init[..n + 1] == trace[..n + 1];
      } else {
        assert trace[..n] == init && trace[..n + 1] == trace;
      }
    } else {
      assert trace[..n] == trace;
    }
  }

  // ----- the invariant of the protocol -----

  predicate Sound(p: Proto) {
    && 1 <= p.attempt && 1 <= p.next
    && (p.owner.Worker? <==> p.phase.Serving? || p.phase.Draining?)
    && (p.owner.Nobody? <==> p.phase.Released? || p.phase.Done?)
    && (p.conns > 0 ==> p.phase.Serving? || p.phase == Draining(true))
    && (p.owner.Nobody? ==> p.cancelled && p.clients == 0)
    && p.clients <= 64 && p.conns <= 64
    && (p.phase.Serving? ==> SoundPings(p.phase.failures, p.phase.told) && (p.phase.told.CutOff? ==> p.cancelled))
  }

  /** The last failure allowed is not shown by the worker, which ends with it. */
  predicate SoundPings(failures: nat, told: Told) {
    && failures <= L.PING_FAILURE_LIMIT
    && (failures == L.PING_FAILURE_LIMIT ==> told.Pending? || told.CutOff?)
    && (told.Fresh? ==> failures == 0)
  }

  lemma PostKeepsSound(policy: RetryPolicy, p: Proto, a: Action)
    requires Sound(p) && Post(policy, p, a).Some?
    ensures Sound(Post(policy, p, a).value)
  {
  }

  /**
    At every point of every run: one owner of the listener, and it is the worker exactly while a session is
    served; relayed connections exist only during a session; once the listener is closed no client is left.
  */
  lemma {:induction false} AlwaysSound(policy: RetryPolicy, trace: seq<Action>)
    requires Accepted(policy, trace)
    ensures Sound(Replay(policy, trace).value)
  {
    if |trace| > 0 {
      AlwaysSound(policy, trace[..|trace| - 1]);
      PostKeepsSound(policy, Replay(policy, trace[..|trace| - 1]).value, trace[|trace| - 1]);
    }
  }

  lemma Extend(policy: RetryPolicy, trace: seq<Action>, a: Action)
    requires Accepted(policy, trace) && Post(policy, Replay(policy, trace).value, a).Some?
    ensures Replay(policy, trace + [a]) == Post(policy, Replay(policy, trace).value, a)
  {
    assert (trace + [a])[..|trace|] == trace;
  }

  // ----- cancellation -----

  lemma {:induction false} StaysCancelled(policy: RetryPolicy, trace: seq<Action>, i: nat, n: nat)
    requires Accepted(policy, trace) && i < n <= |trace| && trace[i].Cancelled?
    ensures Accepted(policy, trace[..n]) && At(policy, trace, n).cancelled
    decreases n
  {
    Prefix(policy, trace, n - 1);
    if i < n - 1 {
      StaysCancelled(policy, trace, i, n - 1);
    }
  }

  /** Once cancelled: no new connection attempt, no new client, no new relayed connection, no retry. */
  lemma NothingNewAfterCancel(policy: RetryPolicy, trace: seq<Action>, i: nat, j: nat)
    requires Accepted(policy, trace) && i < j < |trace| && trace[i].Cancelled?
    ensures !trace[j].DialStarted? && !trace[j].ClientTaken? && !trace[j].ConnTaken? && !trace[j].Waited?
    ensures trace[j].Publish? ==> !trace[j].state.Connecting?
  {
    StaysCancelled(policy, trace, i, j);
    Prefix(policy, trace, j);
  }

  /** How many more actions a cancelled task can perform. */
  function Remaining(p: Proto): nat {
    p.clients + p.conns +
    match p.phase
    case Done => 0
    case Released => 1
    case Leaving => 2
    case Idle => 3
    case Announced => 3
    case Dialing => 3
    case Waiting => 3
    case Failed(_) => 4
    case Faulty => 5
    case Draining(open) => if open then 6 else 5
    case Serving(_, told) => if told.CutOff? then 7 else if told.Current? then 8 else 9
    case Ready => 10
    case Linked => 6
  }

  lemma CancelledMakesProgress(policy: RetryPolicy, p: Proto, a: Action)
    requires Sound(p) && p.cancelled && Post(policy, p, a).Some?
    ensures Post(policy, p, a).value.cancelled && Remaining(Post(policy, p, a).value) < Remaining(p)
  {
  }

  /** A cancelled run ends after a bounded number of further actions, whatever the environment does. */
  lemma {:induction false} CancelledRunIsShort(policy: RetryPolicy, trace: seq<Action>, i: nat, n: nat)
    requires Accepted(policy, trace) && i < n <= |trace| && trace[i].Cancelled?
    ensures Accepted(policy, trace[..n]) && Accepted(policy, trace[..i + 1])
    ensures (n - i - 1) + Remaining(At(policy, trace, n)) <= Remaining(At(policy, trace, i + 1))
    decreases n
  {
    Prefix(policy, trace, i);
    if i + 1 < n {
      CancelledRunIsShort(policy, trace, i, n - 1);
      CancelledStep(policy, trace, i, n - 1);
    }
  }

  lemma CancelledStep(policy: RetryPolicy, trace: seq<Action>, i: nat, j: nat)
    requires Accepted(policy, trace) && i < j < |trace| && trace[i].Cancelled?
    ensures Accepted(policy, trace[..j]) && Accepted(policy, trace[..j + 1])
    ensures Remaining(At(policy, trace, j + 1)) < Remaining(At(policy, trace, j))
  {
    StaysCancelled(policy, trace, i, j);
    Prefix(policy, trace, j);
    AlwaysSound(policy, trace[..j]);
    CancelledMakesProgress(policy, At(policy, trace, j), trace[j]);
  }

  /** At most 10 own actions, and one for each client or connection still to be joined. */
  lemma CancelledRunBound(policy: RetryPolicy, trace: seq<Action>, i: nat)
    requires Accepted(policy, trace) && i < |trace| && trace[i].Cancelled?
    ensures |trace| - i - 1 <= 10 + 2 * MAX_CLIENTS
  {
    CancelledRunIsShort(policy, trace, i, |trace|);
    Prefix(policy, trace, i);
    AlwaysSound(policy, trace[..i + 1]);
  }

  /** A cancelled task is never stuck before it is done: one of its own actions is possible. */
  lemma CancelledCanMove(policy: RetryPolicy, p: Proto) returns (a: Action)
    requires Sound(p) && p.cancelled && !p.phase.Done?
    ensures !a.Cancelled? && Post(policy, p, a).Some?
  {
    a := match p.phase
         case Released => Publish(Stopped)
         case Leaving => if p.clients > 0 then ClientJoined else ListenerClosed
         case Linked => FirstPing(false)
         case Faulty => ChainClosed
         case Ready => HandedOver
         case Serving(_, told) =>
           if told.Fresh? then Publish(Healthy([], None)) else WorkerEnded(0)
         case Draining(open) => if p.conns > 0 then ConnJoined else if open then ChainClosed else HandedBack
         case _ => LoopLeft;
  }

  lemma CancelledStepOn(policy: RetryPolicy, trace: seq<Action>) returns (a: Action)
    requires Accepted(policy, trace)
    requires Replay(policy, trace).value.cancelled && !Replay(policy, trace).value.phase.Done?
    ensures Accepted(policy, trace + [a]) && Replay(policy, trace + [a]).value.cancelled
    ensures Remaining(Replay(policy, trace + [a]).value) < Remaining(Replay(policy, trace).value)
  {
    AlwaysSound(policy, trace);
    var p := Replay(policy, trace).value;
    a := CancelledCanMove(policy, p);
    Extend(policy, trace, a);
    CancelledMakesProgress(policy, p, a);
  }

  lemma Regroup(trace: seq<Action>, a: Action, rest: seq<Action>)
    ensures trace + [a] + rest == trace + ([a] + rest)
  {
  }

  /** Left alone, a cancelled task publishes Stopped after a bounded number of actions, from wherever it is. */
  lemma {:induction false} CancelledRunFinishes(policy: RetryPolicy, trace: seq<Action>) returns (more: seq<Action>)
    requires Accepted(policy, trace) && Replay(policy, trace).value.cancelled
    ensures |more| <= Remaining(Replay(policy, trace).value)
    ensures Accepted(policy, trace + more) && Replay(policy, trace + more).value.phase.Done?
    decreases Remaining(Replay(policy, trace).value)
  {
    if Replay(policy, trace).value.phase.Done? {
      more := [];
      assert trace + more == trace;
    } else {
      var a := CancelledStepOn(policy, trace);
      var rest := CancelledRunFinishes(policy, trace + [a]);
      more := [a] + rest;
      Regroup(trace, a, rest);
    }
  }

  // ----- the end of a run -----

  /** Stopped is published last, once, after the listener was closed with nothing left running. */
  lemma StoppedIsLast(policy: RetryPolicy, trace: seq<Action>, i: nat)
    requires Accepted(policy, trace) && i < |trace| && trace[i] == Publish(Stopped)
    ensures i == |trace| - 1 && i > 0 && trace[i - 1] == ListenerClosed
    ensures var p := Replay(policy, trace).value;
            p == p.(phase := Done, cancelled := true, owner := Nobody, clients := 0, conns := 0)
  {
    Prefix(policy, trace, i);
    AlwaysSound(policy, trace[..i]);
    AlwaysSound(policy, trace[..i + 1]);
    Prefix(policy, trace, i - 1);
    AlwaysSound(policy, trace[..i - 1]);
    OnlyClosingReleases(policy, At(policy, trace, i - 1), trace[i - 1]);
    if i + 1 < |trace| {
      Prefix(policy, trace, i + 1);
      DoneIsFinal(policy, At(policy, trace, i + 1), trace[i + 1]);
    } else {
      assert trace[..i + 1] == trace;
    }
  }

  lemma OnlyClosingReleases(policy: RetryPolicy, p: Proto, a: Action)
    requires Sound(p) && Post(policy, p, a).Some? && Post(policy, p, a).value.phase.Released?
    ensures a.ListenerClosed?
  {
  }

  lemma DoneIsFinal(policy: RetryPolicy, p: Proto, a: Action)
    requires Sound(p) && p.phase.Done?
    ensures Post(policy, p, a).None?
  {
  }

  /** The listener is closed at most once, and only after that is Stopped published. */
  lemma ListenerClosedOnce(policy: RetryPolicy, trace: seq<Action>, i: nat, j: nat)
    requires Accepted(policy, trace) && i < j < |trace| && trace[i].ListenerClosed?
    ensures trace[j] == Publish(Stopped)
  {
    Prefix(policy, trace, i);
    Prefix(policy, trace, i + 1);
    AlwaysSound(policy, trace[..i + 1]);
    AfterClosing(policy, At(policy, trace, i + 1), trace[i + 1]);
    StoppedIsLast(policy, trace, i + 1);
  }

  lemma AfterClosing(policy: RetryPolicy, p: Proto, a: Action)
    requires Sound(p) && p.phase.Released? && Post(policy, p, a).Some?
    ensures a == Publish(Stopped)
  {
  }

  // ----- sessions -----

  /** A chain is open from its connection until it is closed. */
  predicate ChainOpen(p: Proto) {
    p.phase.Linked? || p.phase.Faulty? || p.phase.Ready? || p.phase.Serving? || p.phase == Draining(true)
  }

  function Opened(trace: seq<Action>): nat {
    if |trace| == 0 then 0 else Opened(trace[..|trace| - 1]) + if trace[|trace| - 1] == DialEnded(ChainUp) then 1 else 0
  }

  function Closed(trace: seq<Action>): nat {
    if |trace| == 0 then 0 else Closed(trace[..|trace| - 1]) + if trace[|trace| - 1].ChainClosed? then 1 else 0
  }

  lemma ChainStep(policy: RetryPolicy, p: Proto, a: Action)
    requires Post(policy, p, a).Some?
    ensures (if ChainOpen(p) then 1 else 0) + (if a == DialEnded(ChainUp) then 1 else 0)
            == (if ChainOpen(Post(policy, p, a).value) then 1 else 0) + (if a.ChainClosed? then 1 else 0)
  {
  }

  /** Every chain that was opened is closed exactly once, before the next attempt and before the end. */
  lemma {:induction false} ChainsAreClosed(policy: RetryPolicy, trace: seq<Action>)
    requires Accepted(policy, trace)
    ensures Opened(trace) == Closed(trace) + if ChainOpen(Replay(policy, trace).value) then 1 else 0
  {
    if |trace| > 0 {
      ChainsAreClosed(policy, trace[..|trace| - 1]);
      ChainStep(policy, Replay(policy, trace[..|trace| - 1]).value, trace[|trace| - 1]);
    }
  }

  // ----- retry attempts -----

  predicate Announces(a: Action) { a.Publish? && a.state.Connecting? }

  predicate LongLived(policy: RetryPolicy, a: Action) {
    a.WorkerEnded? && a.lifetime >= policy.resetAfterHealthy
  }

  /** The attempt number that will be announced next, from a point after an announcement of `a`. */
  predicate Pursues(policy: RetryPolicy, p: Proto, a: nat, reset: bool) {
    match p.phase
    case Idle => p.attempt == if reset then 1 else Retry.NextAttempt(a)
    case Waiting => p.next == if reset then 1 else Retry.NextAttempt(a)
    case Failed(_) => p.next == if reset then 1 else Retry.NextAttempt(a)
    case Draining(_) => p.next == if reset then 1 else Retry.NextAttempt(a)
    case _ => !reset && p.attempt == a
  }

  /** Whether a long-lived session ended strictly between positions i and n. */
  predicate WasLongLived(policy: RetryPolicy, trace: seq<Action>, i: nat, n: nat)
    requires n <= |trace|
    decreases n
  {
    i + 1 < n && (WasLongLived(policy, trace, i, n - 1) || LongLived(policy, trace[n - 1]))
  }

  lemma {:induction false} WasLongLivedMeans(policy: RetryPolicy, trace: seq<Action>, i: nat, n: nat)
    requires n <= |trace|
    ensures WasLongLived(policy, trace, i, n) <==> exists k :: i < k < n && LongLived(policy, trace[k])
    decreases n
  {
    if i + 1 < n {
      WasLongLivedMeans(policy, trace, i, n - 1);
    }
  }

  lemma {:induction false} PursuesAttempt(policy: RetryPolicy, trace: seq<Action>, i: nat, n: nat)
    requires Accepted(policy, trace) && i < n <= |trace| && Announces(trace[i])
    requires forall k | i < k < n :: !Announces(trace[k])
    requires forall k | i < k < n :: trace[k] != LoopLeft && !trace[k].AcceptFailed?
    ensures Accepted(policy, trace[..n])
    ensures Pursues(policy, At(policy, trace, n), trace[i].state.attempt,
                    WasLongLived(policy, trace, i, n))
    decreases n
  {
    Prefix(policy, trace, n - 1);
    if i + 1 < n {
      PursuesAttempt(policy, trace, i, n - 1);
      PursuesStep(policy, At(policy, trace, n - 1), trace[n - 1], trace[i].state.attempt,
                  WasLongLived(policy, trace, i, n - 1));
    } else {
      AnnouncedAttempt(policy, At(policy, trace, i), trace[i]);
    }
  }

  lemma AnnouncedAttempt(policy: RetryPolicy, p: Proto, a: Action)
    requires Post(policy, p, a).Some? && Announces(a)
    ensures Pursues(policy, Post(policy, p, a).value, a.state.attempt, false)
  {
  }

  lemma PursuesStep(policy: RetryPolicy, p: Proto, a: Action, attempt: nat, reset: bool)
    requires Post(policy, p, a).Some? && !Announces(a) && a != LoopLeft && !a.AcceptFailed?
    requires Pursues(policy, p, attempt, reset)
    ensures Pursues(policy, Post(policy, p, a).value, attempt, reset || LongLived(policy, a))
  {
  }

  lemma {:induction false} LeavingIsForGood(policy: RetryPolicy, trace: seq<Action>, k: nat, n: nat)
    requires Accepted(policy, trace) && k < n <= |trace| && (trace[k] == LoopLeft || trace[k].AcceptFailed?)
    ensures Accepted(policy, trace[..n])
    ensures var p := At(policy, trace, n); p.phase.Leaving? || p.phase.Released? || p.phase.Done?
    decreases n
  {
    Prefix(policy, trace, n - 1);
    if k < n - 1 {
      LeavingIsForGood(policy, trace, k, n - 1);
    }
    LeavingStep(policy, At(policy, trace, n - 1), trace[n - 1]);
  }

  lemma LeavingStep(policy: RetryPolicy, p: Proto, a: Action)
    requires Post(policy, p, a).Some?
    requires p.phase.Leaving? || p.phase.Released? || p.phase.Done? || a == LoopLeft || a.AcceptFailed?
    ensures var p' := Post(policy, p, a).value; p'.phase.Leaving? || p'.phase.Released? || p'.phase.Done?
  {
  }

  /**
    From one announced attempt to the next the number goes up by one (saturating), unless a session in
    between lived at least `reset_after_healthy`: then, and only then, it starts over at 1.
  */
  lemma AttemptsCountUp(policy: RetryPolicy, trace: seq<Action>, i: nat, j: nat)
    requires Accepted(policy, trace) && i < j < |trace| && Announces(trace[i]) && Announces(trace[j])
    requires forall k | i < k < j :: !Announces(trace[k])
    ensures trace[j].state.attempt ==
            if exists k :: i < k < j && LongLived(policy, trace[k]) then 1
            else Min(trace[i].state.attempt + 1, 0xFFFF_FFFF)
    ensures trace[j].state.attempt >= 1
  {
    Prefix(policy, trace, j);
    AlwaysSound(policy, trace[..j]);
    forall k | i < k < j
      ensures trace[k] != LoopLeft && !trace[k].AcceptFailed?
    {
      if trace[k] == LoopLeft || trace[k].AcceptFailed? {
        LeavingIsForGood(policy, trace, k, j);
      }
    }
    PursuesAttempt(policy, trace, i, j);
    WasLongLivedMeans(policy, trace, i, j);
  }

  /** An attempt has been announced, and has not been dialed to the end. */
  predicate Undialed(p: Proto) {
    p.phase.Announced? || p.phase.Dialing? || p.phase.Leaving? || p.phase.Released? || p.phase.Done?
  }

  lemma UndialedStep(policy: RetryPolicy, p: Proto, a: Action, p': Proto)
    requires Post(policy, p, a) == Some(p') && !a.DialEnded?
    requires Announces(a) || Undialed(p)
    ensures Undialed(p')
  {
  }

  lemma {:induction false} NotYetDialed(policy: RetryPolicy, trace: seq<Action>, i: nat, n: nat)
    requires Accepted(policy, trace) && i < n <= |trace| && Announces(trace[i])
    requires forall k | i < k < n :: !trace[k].DialEnded?
    ensures Accepted(policy, trace[..n]) && Undialed(At(policy, trace, n))
    decreases n
  {
    Prefix(policy, trace, n - 1);
    if i + 1 < n {
      NotYetDialed(policy, trace, i, n - 1);
    }
    UndialedStep(policy, At(policy, trace, n - 1), trace[n - 1], At(policy, trace, n));
  }

  function Attempts(trace: seq<Action>): nat {
    if |trace| == 0 then 0 else Attempts(trace[..|trace| - 1]) + if Announces(trace[|trace| - 1]) then 1 else 0
  }

  lemma {:induction false} AnnouncementsAreCounted(policy: RetryPolicy, trace: seq<Action>)
    requires Accepted(policy, trace)
    ensures Replay(policy, trace).value.announced == Attempts(trace)
  {
    if |trace| > 0 {
      AnnouncementsAreCounted(policy, trace[..|trace| - 1]);
      CountStep(policy, Replay(policy, trace[..|trace| - 1]).value, trace[|trace| - 1]);
    }
  }

  lemma CountStep(policy: RetryPolicy, p: Proto, a: Action)
    requires Post(policy, p, a).Some?
    ensures Post(policy, p, a).value.announced == p.announced + if Announces(a) then 1 else 0
  {
  }

  /** Between announcing an attempt and announcing the next, the connector has given its answer. */
  lemma EveryRoundDials(policy: RetryPolicy, trace: seq<Action>, i: nat, j: nat)
    requires Accepted(policy, trace) && i < j < |trace| && Announces(trace[i]) && Announces(trace[j])
    ensures exists k :: i < k < j && trace[k].DialEnded?
  {
    if forall k | i < k < j :: !trace[k].DialEnded? {
      NotYetDialed(policy, trace, i, j);
      Prefix(policy, trace, j);
      assert false;
    }
  }

  /** Every published reconnect delay belongs to the attempt it names. */
  lemma PublishedDelayFits(policy: RetryPolicy, trace: seq<Action>, i: nat)
    requires Accepted(policy, trace) && i < |trace| && trace[i].Publish? && trace[i].state.Reconnecting?
    ensures trace[i].state.attempt >= 1
    ensures Retry.WithinJitter(policy, trace[i].state.attempt, trace[i].state.delayMs)
  {
    Prefix(policy, trace, i);
    AlwaysSound(policy, trace[..i]);
  }

  /** Every attempt number fits 32 bits, and the next is not below the current. */
  predicate Rising(p: Proto) {
    && p.attempt <= Retry.U32_MAX && p.next <= Retry.U32_MAX
    && (p.phase.Failed? || p.phase.Waiting? || p.phase.Draining? ==> p.attempt <= p.next)
  }

  lemma RisingStep(policy: RetryPolicy, p: Proto, a: Action)
    requires Rising(p) && Post(policy, p, a).Some?
    ensures Rising(Post(policy, p, a).value)
    ensures !LongLived(policy, a) ==> p.attempt <= Post(policy, p, a).value.attempt
  {
  }

  lemma {:induction false} AlwaysRising(policy: RetryPolicy, trace: seq<Action>)
    requires Accepted(policy, trace)
    ensures Rising(Replay(policy, trace).value)
  {
    if |trace| > 0 {
      AlwaysRising(policy, trace[..|trace| - 1]);
      RisingStep(policy, Replay(policy, trace[..|trace| - 1]).value, trace[|trace| - 1]);
    }
  }

  lemma {:induction false} AttemptsRise(policy: RetryPolicy, trace: seq<Action>, i: nat, n: nat)
    requires Accepted(policy, trace) && i <= n <= |trace|
    requires forall k | i <= k < n :: !LongLived(policy, trace[k])
    ensures Accepted(policy, trace[..i]) && Accepted(policy, trace[..n])
    ensures At(policy, trace, i).attempt <= At(policy, trace, n).attempt
    decreases n
  {
    Prefix(policy, trace, n);
    if i < n {
      Prefix(policy, trace, n - 1);
      AttemptsRise(policy, trace, i, n - 1);
      AlwaysRising(policy, trace[..n - 1]);
      RisingStep(policy, At(policy, trace, n - 1), trace[n - 1]);
    }
  }

  predicate Retries(a: Action) { a.Publish? && a.state.Reconnecting? }

  /** Between two long sessions the delays do not shrink, jitter aside, however the attempts fail. */
  lemma DelaysNeverShrink(policy: RetryPolicy, trace: seq<Action>, i: nat, j: nat)
    requires Retry.Representable(policy) && Accepted(policy, trace) && i < j < |trace|
    requires Retries(trace[i]) && Retries(trace[j]) && forall k | i < k < j :: !LongLived(policy, trace[k])
    ensures trace[i].state.attempt <= trace[j].state.attempt
    ensures Retry.Unjittered(policy, trace[i].state.attempt) <= Retry.Unjittered(policy, trace[j].state.attempt)
  {
    AttemptsRise(policy, trace, i, j);
    Prefix(policy, trace, i);
    Prefix(policy, trace, j);
    Retry.UnjitteredGrows(policy, trace[i].state.attempt, trace[j].state.attempt);
  }

  // ----- why a failure is shown as Blocked -----

  /** An action that decides how the attempt goes on. */
  predicate Ends(a: Action) { a.DialEnded? || a.FirstPing? || a.WorkerEnded? }

  /** A failure shown as this phase shows it, and no other, comes from `a`. */
  predicate Caused(a: Action, phase: Phase) {
    match phase
    case Failed(permanent) =>
      && (a == DialEnded(Refused) || a == DialEnded(Unreachable) || a == FirstPing(false) || a.WorkerEnded?)
      && (permanent <==> a == DialEnded(Refused))
    case Faulty => a == FirstPing(false)
    case Draining(_) => a.WorkerEnded?
    case _ => false
  }

  lemma CauseStep(policy: RetryPolicy, p: Proto, a: Action, p': Proto)
    requires Post(policy, p, a) == Some(p') && (p'.phase.Failed? || p'.phase.Faulty? || p'.phase.Draining?)
    ensures if Ends(a) then Caused(a, p'.phase)
            else (p.phase.Failed? || p.phase.Faulty? || p.phase.Draining?)
                 && forall end :: Caused(end, p.phase) ==> Caused(end, p'.phase)
  {
  }

  lemma {:induction false} FailureHasCause(policy: RetryPolicy, trace: seq<Action>, n: nat) returns (k: nat)
    requires Accepted(policy, trace) && n <= |trace| && Accepted(policy, trace[..n])
    requires var p := At(policy, trace, n); p.phase.Failed? || p.phase.Faulty? || p.phase.Draining?
    ensures k < n && Caused(trace[k], At(policy, trace, n).phase)
    ensures forall j | k < j < n :: !Ends(trace[j])
    decreases n
  {
    assert n > 0;
    Prefix(policy, trace, n - 1);
    CauseStep(policy, At(policy, trace, n - 1), trace[n - 1], At(policy, trace, n));
    k := n - 1;
    if !Ends(trace[n - 1]) {
      k := FailureHasCause(policy, trace, n - 1);
    }
  }

  /**
    Of the failures shown, those with a permanent cause are shown as Blocked, and only those: the last thing that ended
    an attempt was a refused dial, never a failed first ping or a served session.
  */
  lemma BlockedExactlyWhenRefused(policy: RetryPolicy, trace: seq<Action>, i: nat) returns (k: nat)
    requires Accepted(policy, trace) && i < |trace|
    requires trace[i].Publish? && (trace[i].state.Blocked? || trace[i].state.Reconnecting?)
    ensures k < i && forall j | k < j < i :: !Ends(trace[j])
    ensures if trace[i].state.Blocked? then trace[k] == DialEnded(Refused)
            else trace[k] == DialEnded(Unreachable) || trace[k] == FirstPing(false) || trace[k].WorkerEnded?
  {
    Prefix(policy, trace, i);
    k := FailureHasCause(policy, trace, i);
  }

  // ----- health published after cancellation -----

  predicate HealthNews(a: Action) {
    a.Publish? && (a.state.Healthy? || a.state.Degraded?)
  }

  /** No session health is left to be published. */
  predicate NoNewsLeft(p: Proto) {
    p.cancelled && !p.phase.Ready? && !(p.phase.Serving? && (p.phase.told.Fresh? || p.phase.told.Pending?))
  }

  lemma NewsStep(policy: RetryPolicy, p: Proto, a: Action, p': Proto)
    requires p.cancelled && Post(policy, p, a) == Some(p')
    ensures HealthNews(a) ==> !NoNewsLeft(p) && NoNewsLeft(p')
    ensures NoNewsLeft(p) ==> NoNewsLeft(p')
  {
  }

  lemma {:induction false} NewsStaysOut(policy: RetryPolicy, trace: seq<Action>, j: nat, n: nat)
    requires Accepted(policy, trace) && j < n <= |trace| && HealthNews(trace[j])
    requires Accepted(policy, trace[..j]) && At(policy, trace, j).cancelled
    ensures NewsOut(policy, trace, n)
    decreases n
  {
    if j < n - 1 {
      NewsStaysOut(policy, trace, j, n - 1);
    }
    NewsAt(policy, trace, n - 1);
  }

  ghost predicate NewsOut(policy: RetryPolicy, trace: seq<Action>, n: nat)
    requires n <= |trace|
  {
    Accepted(policy, trace[..n]) && NoNewsLeft(At(policy, trace, n))
  }

  lemma NewsAt(policy: RetryPolicy, trace: seq<Action>, k: nat)
    requires Accepted(policy, trace) && k < |trace|
    requires Accepted(policy, trace[..k]) && At(policy, trace, k).cancelled
    ensures HealthNews(trace[k]) || NewsOut(policy, trace, k) ==> NewsOut(policy, trace, k + 1)
    ensures NewsOut(policy, trace, k) ==> !HealthNews(trace[k])
  {
    Prefix(policy, trace, k);
    NewsStep(policy, At(policy, trace, k), trace[k], At(policy, trace, k + 1));
  }

  /** After cancellation at most one more health value is published: one that had already been found. */
  lemma OneHealthValueAfterCancel(policy: RetryPolicy, trace: seq<Action>, i: nat, j: nat, k: nat)
    requires Accepted(policy, trace) && i < j < k < |trace| && trace[i].Cancelled?
    requires HealthNews(trace[j])
    ensures !HealthNews(trace[k])
  {
    StaysCancelled(policy, trace, i, j);
    NewsStaysOut(policy, trace, j, k);
    NewsAt(policy, trace, k);
  }

  predicate ShowsHealthy(a: Action) { a.Publish? && a.state.Healthy? }

  /** A ping has succeeded, and that has not been shown yet. */
  predicate HealthyIsDue(p: Proto) {
    p.phase.Ready? || (p.phase.Serving? && p.phase.failures == 0 && (p.phase.told.Fresh? || p.phase.told.Pending?))
  }

  lemma HealthyStaysOut(policy: RetryPolicy, p: Proto, a: Action, p': Proto)
    requires Sound(p) && p.cancelled && Post(policy, p, a) == Some(p')
    ensures p'.cancelled
    ensures !HealthyIsDue(p) ==> !ShowsHealthy(a) && !HealthyIsDue(p')
    ensures ShowsHealthy(a) ==> !HealthyIsDue(p')
  {
  }

  /** Cancelled, with no Healthy left to be shown. */
  ghost predicate Cold(policy: RetryPolicy, trace: seq<Action>) {
    && Accepted(policy, trace)
    && Replay(policy, trace).value.cancelled && !HealthyIsDue(Replay(policy, trace).value)
  }

  lemma ColdStep(policy: RetryPolicy, trace: seq<Action>, j: nat)
    requires Accepted(policy, trace) && j < |trace| && Cold(policy, trace[..j])
    ensures !ShowsHealthy(trace[j]) && Cold(policy, trace[..j + 1])
  {
    Prefix(policy, trace, j);
    AlwaysSound(policy, trace[..j]);
    HealthyStaysOut(policy, At(policy, trace, j), trace[j], At(policy, trace, j + 1));
  }

  lemma {:induction false} NoHealthyFollows(policy: RetryPolicy, trace: seq<Action>, i: nat, n: nat)
    requires Accepted(policy, trace) && i <= n <= |trace| && Cold(policy, trace[..i])
    ensures Cold(policy, trace[..n])
    ensures forall k | i <= k < n :: !ShowsHealthy(trace[k])
    decreases n
  {
    if i < n {
      NoHealthyFollows(policy, trace, i, n - 1);
      ColdStep(policy, trace, n - 1);
    }
  }

  lemma HealthyFollows(policy: RetryPolicy, trace: seq<Action>) returns (more: seq<Action>)
    requires Accepted(policy, trace) && HealthyIsDue(Replay(policy, trace).value)
    ensures |more| > 0 && Accepted(policy, trace + more) && ShowsHealthy(more[|more| - 1])
  {
    AlwaysSound(policy, trace);
    more := [];
    var all := trace;
    if Replay(policy, all).value.phase.Ready? {
      Extend(policy, all, HandedOver);
      more, all := more + [HandedOver], all + [HandedOver];
    }
    var healthy := Publish(Healthy([], None));
    Extend(policy, all, healthy);
    assert all + [healthy] == trace + (more + [healthy]);
    more := more + [healthy];
  }

  /** Healthy is still shown in some continuation. */
  ghost predicate HealthyCanFollow(policy: RetryPolicy, trace: seq<Action>) {
    exists more: seq<Action> :: |more| > 0 && Accepted(policy, trace + more) && ShowsHealthy(more[|more| - 1])
  }

  /** After cancellation Healthy can still be published exactly when a ping had succeeded that was not reported yet. */
  lemma HealthyAfterCancelExactlyWhen(policy: RetryPolicy, trace: seq<Action>)
    requires Accepted(policy, trace) && Replay(policy, trace).value.cancelled
    ensures HealthyCanFollow(policy, trace) <==> HealthyIsDue(Replay(policy, trace).value)
  {
    if HealthyIsDue(Replay(policy, trace).value) {
      var more := HealthyFollows(policy, trace);
    }
    forall more: seq<Action> | |more| > 0 && Accepted(policy, trace + more) && Cold(policy, trace)
      ensures !ShowsHealthy(more[|more| - 1])
    {
      var all := trace + more;
      assert all[..|trace|] == trace;
      NoHealthyFollows(policy, all, |trace|, |all|);
      assert all[|all| - 1] == more[|more| - 1];
    }
  }

  /** A run in which Stop comes between a successful ping and its relaying, and Healthy is shown nevertheless. */
  lemma HealthyAfterCancelHappens(policy: RetryPolicy) returns (trace: seq<Action>, more: seq<Action>)
    ensures |trace| > 0 && Accepted(policy, trace) && trace[|trace| - 1].Cancelled?
    ensures |more| > 0 && Accepted(policy, trace + more) && ShowsHealthy(more[|more| - 1])
  {
    trace := ServingTrace(policy);
    Extend(policy, trace, HealthPing(true));
    trace := trace + [HealthPing(true)];
    Extend(policy, trace, Cancelled);
    trace := trace + [Cancelled];
    more := HealthyFollows(policy, trace);
  }

  lemma ServingTrace(policy: RetryPolicy) returns (t: seq<Action>)
    ensures Replay(policy, t) == Some(INITIAL.(phase := Serving(0, Current), owner := Worker, announced := 1))
  {
    t := LinkedTrace(policy);
    Extend(policy, t, FirstPing(true));
    t := t + [FirstPing(true)];
    Extend(policy, t, HandedOver);
    t := t + [HandedOver];
    Extend(policy, t, Publish(Healthy([], None)));
    t := t + [Publish(Healthy([], None))];
  }

  lemma LinkedTrace(policy: RetryPolicy) returns (t: seq<Action>)
    ensures Replay(policy, t) == Some(INITIAL.(phase := Linked, announced := 1))
  {
    t := [];
    Extend(policy, t, Publish(Connecting(1)));
    t := t + [Publish(Connecting(1))];
    Extend(policy, t, DialStarted);
    t := t + [DialStarted];
    Extend(policy, t, DialEnded(ChainUp));
    t := t + [DialEnded(ChainUp)];
  }
}
