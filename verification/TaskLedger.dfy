/**
  The manager's bookkeeping protocol: which operations on supervisor tasks and tunnel views may
  follow which.  `Replay` accepts an operation history or rejects it; the manager is proved to
  produce only accepted histories, and the lemmas say what acceptance implies.
*/
module TaskLedger {
  import opened Wrappers
  import opened SupervisorTypes

  datatype Op =
    | StartCalled(id: string)
    | Spawn(id: string, handle: ActiveTunnel)
    | Cancel(id: string, handle: ActiveTunnel)
    | Join(id: string, handle: ActiveTunnel, exited: bool)   // exited: the task had already finished by itself
    | Show(id: string, view: TunnelView)                     // the tunnel's view is set
    | Halt(id: string)                                       // the view is set to Stopped by a stop command
    | Adopt(id: string)                                      // a view appears, Stopped
    | Forget(id: string)                                     // a view disappears

  datatype Ledger = Ledger(
    live: map<string, ActiveTunnel>,
    cancelled: set<nat>,
    armed: set<string>,
    shown: map<string, TunnelView>,
    spawned: nat)

  const EMPTY := Ledger(map[], {}, {}, map[], 0)

  predicate Holds(l: Ledger, id: string, task: nat) {
    id in l.live && l.live[id].task == task
  }

  function Post(l: Ledger, op: Op): Option<Ledger> {
    match op
    case StartCalled(id) => Some(l.(armed := l.armed + {id}))
    case Spawn(id, handle) =>
      if id !in l.live && id in l.armed && handle.task == l.spawned
      then Some(l.(live := l.live[id := handle], spawned := l.spawned + 1)) else None
    case Cancel(id, handle) =>
      if id in l.live && l.live[id] == handle then Some(l.(cancelled := l.cancelled + {handle.task})) else None
    case Join(id, handle, exited) =>
      if id in l.live && l.live[id] == handle && (exited || handle.task in l.cancelled)
      then Some(l.(live := l.live - {id})) else None
    case Show(id, view) =>
      if id in l.shown && id in l.armed then Some(l.(shown := l.shown[id := view])) else None
    case Halt(id) =>
      if id in l.live then None
      else Some(l.(armed := l.armed - {id},
                   shown := if id in l.shown then l.shown[id := STOPPED_VIEW] else l.shown))
    case Adopt(id) =>
      if id in l.shown then None else Some(l.(shown := l.shown[id := STOPPED_VIEW]))
    case Forget(id) =>
      if id in l.live then None else Some(l.(shown := l.shown - {id}))
  }

  function Replay(ops: seq<Op>): Option<Ledger> {
    if |ops| == 0 then Some(EMPTY)
    else
      var l := Replay(ops[..|ops| - 1]);
      if l.None? then None else Post(l.value, ops[|ops| - 1])
  }

  lemma {:induction false} PrefixReplays(ops: seq<Op>, n: nat)
    requires n <= |ops| && Replay(ops).Some?
    ensures Replay(ops[..n]).Some?
    ensures n < |ops| ==> Post(Replay(ops[..n]).value, ops[n]).Some?
                          && Replay(ops[..n + 1]) == Post(Replay(ops[..n]).value, ops[n])
    decreases |ops|
  {
    if n < |ops| {
      var init := ops[..|ops| - 1];
      if n < |init| {
        PrefixReplays(init, n);
        assert init[..n] == ops[..n] && init[..n + 1] == ops[..n + 1];
      } else {
        assert ops[..n] == init && ops[..n + 1] == ops;
      }
    } else {
      assert ops[..n] == ops;
    }
  }

  // ----- conservation -----

  function Spawns(ops: seq<Op>, task: nat): nat {
    if |ops| == 0 then 0
    else Spawns(ops[..|ops| - 1], task) + if ops[|ops| - 1].Spawn? && ops[|ops| - 1].handle.task == task then 1 else 0
  }

  function Joins(ops: seq<Op>, task: nat): nat {
    if |ops| == 0 then 0
    else Joins(ops[..|ops| - 1], task) + if ops[|ops| - 1].Join? && ops[|ops| - 1].handle.task == task then 1 else 0
  }

  ghost predicate Running(l: Ledger, task: nat) {
    exists id :: Holds(l, id, task)
  }

  ghost predicate Injective(l: Ledger) {
    forall a, b | a in l.live && b in l.live && a != b :: l.live[a].task != l.live[b].task
  }

  lemma {:induction false} TaskNumbersAreDistinct(ops: seq<Op>)
    requires Replay(ops).Some?
    ensures Injective(Replay(ops).value)
    ensures forall id | id in Replay(ops).value.live :: Replay(ops).value.live[id].task < Replay(ops).value.spawned
  {
    if |ops| > 0 {
      TaskNumbersAreDistinct(ops[..|ops| - 1]);
    }
  }

  /**
    Task conservation: every task was spawned at most once; every spawned task is either still held
    by exactly one tunnel or was joined exactly once, never both and never neither.
  */
  lemma {:induction false} TasksAreConserved(ops: seq<Op>, task: nat)
    requires Replay(ops).Some?
    ensures var l := Replay(ops).value;
            && Injective(l)
            && Spawns(ops, task) == (if task < l.spawned then 1 else 0)
            && Joins(ops, task) + (if Running(l, task) then 1 else 0) == Spawns(ops, task)
  {
    TaskNumbersAreDistinct(ops);
    if |ops| > 0 {
      var init, op := ops[..|ops| - 1], ops[|ops| - 1];
      TasksAreConserved(init, task);
      TaskNumbersAreDistinct(init);
      var l := Replay(init).value;
      RunningChanges(l, op, task);
      if op.Join? && op.handle.task == task {
        assert Holds(l, op.id, task);
      }
    } else {
      assert forall id :: !Holds(EMPTY, id, task);
    }
  }

  lemma RunningChanges(l: Ledger, op: Op, task: nat)
    requires Post(l, op).Some? && Injective(l)
    ensures var l' := Post(l, op).value;
            Running(l', task) <==>
              (op.Spawn? && op.handle.task == task) || (Running(l, task) && !(op.Join? && op.handle.task == task))
  {
    var l' := Post(l, op).value;
    assert forall id :: Holds(l', id, task) <==>
      (op.Spawn? && op.id == id && op.handle.task == task) || (Holds(l, id, task) && !(op.Join? && op.id == id));
    if op.Spawn? && op.handle.task == task {
      assert Holds(l', op.id, task);
    }
    if Running(l, task) && !(op.Join? && op.handle.task == task) {
      var id :| Holds(l, id, task);
      assert Holds(l', id, task);
    }
  }

  /** One root task per tunnel: between two spawns for a tunnel the first task is joined. */
  lemma OneTaskPerTunnel(ops: seq<Op>, i: nat, j: nat)
    requires Replay(ops).Some? && i < j < |ops|
    requires ops[i].Spawn? && ops[j].Spawn? && ops[i].id == ops[j].id
    ensures exists k :: i < k < j && ops[k].Join? && ops[k].id == ops[i].id && ops[k].handle.task == ops[i].handle.task
  {
    var id, task := ops[i].id, ops[i].handle.task;
    if forall k | i < k < j :: !(ops[k].Join? && ops[k].id == id && ops[k].handle.task == task) {
      PrefixReplays(ops, i);
      StaysHeld(ops, i + 1, j, id, task);
      PrefixReplays(ops, j);
      assert false;
    }
  }

  lemma {:induction false} StaysHeld(ops: seq<Op>, lo: nat, hi: nat, id: string, task: nat)
    requires Replay(ops).Some? && lo <= hi <= |ops|
    requires Replay(ops[..lo]).Some? && Holds(Replay(ops[..lo]).value, id, task)
    requires forall k | lo <= k < hi :: !(ops[k].Join? && ops[k].id == id && ops[k].handle.task == task)
    ensures Replay(ops[..hi]).Some? && Holds(Replay(ops[..hi]).value, id, task)
    decreases hi
  {
    if lo < hi {
      StaysHeld(ops, lo, hi - 1, id, task);
      PrefixReplays(ops, hi - 1);
    }
  }

  /** A task that has not finished by itself is cancelled before it is joined. */
  lemma {:induction false} CancelPrecedesJoin(ops: seq<Op>, task: nat)
    requires Replay(ops).Some? && task in Replay(ops).value.cancelled
    ensures exists i :: 0 <= i < |ops| && ops[i].Cancel? && ops[i].handle.task == task
  {
    var init := ops[..|ops| - 1];
    var op := ops[|ops| - 1];
    if op.Cancel? && op.handle.task == task {
      assert ops[|ops| - 1].Cancel?;
    } else {
      CancelPrecedesJoin(init, task);
      var i :| 0 <= i < |init| && init[i].Cancel? && init[i].handle.task == task;
      assert ops[i] == init[i];
    }
  }

  lemma JoinedTaskWasCancelled(ops: seq<Op>, j: nat)
    requires Replay(ops).Some? && j < |ops| && ops[j].Join? && !ops[j].exited
    ensures exists i :: 0 <= i < j && ops[i].Cancel? && ops[i].handle.task == ops[j].handle.task
  {
    var before, task := ops[..j], ops[j].handle.task;
    PrefixReplays(ops, j);
    CancelPrecedesJoin(before, task);
    var i :| 0 <= i < j && before[i].Cancel? && before[i].handle.task == task;
    assert ops[i] == before[i];
  }

  // ----- stopped stays stopped -----

  lemma {:induction false} LiveIsArmed(ops: seq<Op>)
    requires Replay(ops).Some?
    ensures forall id | id in Replay(ops).value.live :: id in Replay(ops).value.armed
  {
    if |ops| > 0 {
      LiveIsArmed(ops[..|ops| - 1]);
    }
  }

  lemma {:induction false} StaysDisarmed(ops: seq<Op>, lo: nat, hi: nat, id: string)
    requires Replay(ops).Some? && lo <= hi <= |ops|
    requires Replay(ops[..lo]).Some? && id !in Replay(ops[..lo]).value.armed
    requires forall k | lo <= k < hi :: ops[k] != StartCalled(id)
    ensures Replay(ops[..hi]).Some? && id !in Replay(ops[..hi]).value.armed
    decreases hi
  {
    if lo < hi {
      StaysDisarmed(ops, lo, hi - 1, id);
      PrefixReplays(ops, hi - 1);
    }
  }

  /** After a stop command no task is spawned and no other view is shown until start is called again. */
  lemma HaltedStaysHalted(ops: seq<Op>, i: nat, j: nat)
    requires Replay(ops).Some? && i < j < |ops| && ops[i].Halt?
    requires (ops[j].Spawn? || ops[j].Show?) && ops[j].id == ops[i].id
    ensures exists k :: i < k < j && ops[k] == StartCalled(ops[i].id)
  {
    var id := ops[i].id;
    if forall k | i < k < j :: ops[k] != StartCalled(id) {
      PrefixReplays(ops, i);
      StaysDisarmed(ops, i + 1, j, id);
      PrefixReplays(ops, j);
      assert false;
    }
  }
}
