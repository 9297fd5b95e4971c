/**
  Copying bytes both ways between a local connection and an SSH channel.  Every await may be answered by
  cancellation, by an error or by as few bytes as the other side likes.
*/
module Relay {
  import opened Wrappers
  import opened Utf8

  const RELAY_BUFFER_BYTES: nat := 16 * 1024
  const U32_LIMIT: nat := 0x1_0000_0000
  const U64_LIMIT: nat := 0x1_0000_0000_0000_0000

  datatype IoError = ReadFailed | WriteFailed | ShutdownFailed | WriteZero

  /** An atomic counter, which wraps around. */
  class Counter {
    const limit: nat
    var value: nat

    constructor (limit: nat)
      requires limit > 0
      ensures value == 0 && this.limit == limit
    {
      this.limit := limit;
      value := 0;
    }

    method FetchAdd(n: nat)
      requires limit > 0
      modifies this
      ensures value == (old(value) + n) % limit
    {
      value := (value + n) % limit;
    }

    method FetchSub(n: nat)
      requires n <= limit && limit > 0
      modifies this
      ensures value == (old(value) + limit - n) % limit
    {
      value := (value + limit - n) % limit;
    }
  }

  /**
    The read half: it yields `arrives` in pieces of any size, then reports the end with a count of zero.  Only where
    `mayFail` says so can it fail.
  */
  class Reader {
    const arrives: seq<Byte>
    var position: nat

    ghost predicate Valid()
      reads this
    {
      position <= |arrives|
    }

    constructor (arrives: seq<Byte>)
      ensures Valid() && position == 0 && this.arrives == arrives
    {
      this.arrives := arrives;
      position := 0;
    }

    method Read(buffer: array<Byte>, mayFail: bool) returns (r: Result<nat, IoError>)
      requires Valid() && buffer.Length > 0
      modifies this`position, buffer
      ensures Valid() && position == old(position) + if r.Ok? then r.value else 0
      ensures r.Ok? ==> r.value <= buffer.Length && buffer[..r.value] == arrives[old(position)..position]
      ensures r.Ok? && r.value == 0 ==> position == |arrives|
      ensures r.Err? ==> r.error == ReadFailed && mayFail
    {
      var fails: bool := *;
      if mayFail && fails {
        return Err(ReadFailed);
      }
      var n: nat :| n <= buffer.Length && n <= |arrives| - position && (n == 0 ==> position == |arrives|);
      var i := 0;
      while i < n
        invariant i <= n && buffer[..i] == arrives[position..position + i]
        modifies buffer
      {
        buffer[i] := arrives[position + i];
        i := i + 1;
      }
      position := position + n;
      return Ok(n);
    }
  }

  /** The write half. */
  class Writer {
    var received: seq<Byte>
    var shutdowns: nat

    constructor ()
      ensures received == [] && shutdowns == 0
    {
      received := [];
      shutdowns := 0;
    }

    method Write(bytes: seq<Byte>, mayFail: bool) returns (r: Result<nat, IoError>)
      requires bytes != []
      modifies this`received
      ensures r.Ok? ==> r.value <= |bytes| && received == old(received) + bytes[..r.value]
      ensures r.Err? ==> received == old(received) && r.error == WriteFailed
      ensures r.Err? || r.value == 0 ==> mayFail
    {
      var fails: bool := *;
      if mayFail && fails {
        return Err(WriteFailed);
      }
      var n: nat :| n <= |bytes| && (n == 0 ==> mayFail);
      received := received + bytes[..n];
      return Ok(n);
    }

    method Shutdown(mayFail: bool) returns (r: Result<(), IoError>)
      modifies this`shutdowns
      ensures shutdowns == old(shutdowns) + 1
      ensures r.Err? ==> r.error == ShutdownFailed && mayFail
    {
      shutdowns := shutdowns + 1;
      var fails: bool := *;
      r := if mayFail && fails then Err(ShutdownFailed) else Ok(());
    }
  }

  /** The cancellation both directions watch. */
  class Token {
    var cancelled: bool

    constructor ()
      ensures !cancelled
    {
      cancelled := false;
    }

    /**
      A point where a direction may be suspended, and cancellation come meanwhile, which is looked at first.  One that
      may not fail is dropped at some such point.
    */
    method Suspend(mayFail: bool) returns (dropped: bool)
      modifies this
      ensures old(cancelled) ==> cancelled
      ensures cancelled ==> dropped
      ensures dropped ==> cancelled || !mayFail
    {
      var stop: bool, gone: bool := *, *;
      if stop {
        cancelled := true;
      }
      dropped := cancelled || (gone && !mayFail);
    }
  }

  // ----- the steps of one direction -----

  datatype Step =
    | Took(n: nat)                // a read of at most one buffer
    | AtEnd                       // a read of nothing
    | Gave(n: nat)                // a partial write
    | ShutDown
    | Failed(error: IoError)
    | Dropped                     // cancelled, or abandoned because the other direction failed

  datatype Stage = Reading | Writing | Ending | Finished | Broken(error: IoError) | Abandoned

  /** `taken` bytes were read, `passed` of them written, `shutdowns` sent. */
  datatype Flow = Flow(taken: nat, passed: nat, shutdowns: nat, stage: Stage)

  const IDLE: Flow := Flow(0, 0, 0, Reading)

  predicate Going(f: Flow) {
    f.stage.Reading? || f.stage.Writing? || f.stage.Ending?
  }

  function After(f: Flow, s: Step): Option<Flow> {
    match s
    case Took(n) =>
      if f.stage.Reading? && 0 < n <= RELAY_BUFFER_BYTES then Some(f.(taken := f.taken + n, stage := Writing)) else None
    case AtEnd => if f.stage.Reading? then Some(f.(stage := Ending)) else None
    case Gave(n) =>
      if f.stage.Writing? && 0 < n && f.passed + n <= f.taken then
        Some(f.(passed := f.passed + n, stage := if f.passed + n == f.taken then Reading else Writing))
      else None
    case ShutDown => if f.stage.Ending? then Some(f.(shutdowns := f.shutdowns + 1, stage := Finished)) else None
    case Failed(error) =>
      if Going(f) then
        Some(f.(shutdowns := f.shutdowns + if f.stage.Ending? then 1 else 0, stage := Broken(error)))
      else None
    case Dropped => if Going(f) then Some(f.(stage := Abandoned)) else None
  }

  function Replay(steps: seq<Step>): Option<Flow> {
    if |steps| == 0 then Some(IDLE)
    else
      var f := Replay(steps[..|steps| - 1]);
      if f.None? then None else After(f.value, steps[|steps| - 1])
  }

  /** At most one buffer behind; a shutdown is sent at most once, after everything. */
  ghost predicate Faithful(f: Flow) {
    && f.passed <= f.taken <= f.passed + 16_384
    && (f.stage.Reading? || f.stage.Ending? || f.stage.Finished? ==> f.passed == f.taken)
    && (Going(f) ==> f.shutdowns == 0)
    && (f.stage.Finished? ==> f.shutdowns == 1)
    && f.shutdowns <= 1 && (f.shutdowns == 1 ==> f.passed == f.taken)
  }

  lemma StaysFaithful(f: Flow, s: Step)
    requires Faithful(f) && After(f, s).Some?
    ensures Faithful(After(f, s).value)
  {
  }

  /** Whatever the chunks, partial writes and failures: at every point of every direction. */
  lemma {:induction false} AlwaysFaithful(steps: seq<Step>)
    requires Replay(steps).Some?
    ensures Faithful(Replay(steps).value)
  {
    if |steps| > 0 {
      AlwaysFaithful(steps[..|steps| - 1]);
      StaysFaithful(Replay(steps[..|steps| - 1]).value, steps[|steps| - 1]);
    }
  }

  /**
    The steps a running direction has made, and where they have taken it.  A direction that may not fail is one whose
    error nobody sees, because the other's came first and this one was dropped.
  */
  class Course {
    const mayFail: bool
    ghost var steps: seq<Step>
    ghost var flow: Flow

    ghost predicate Valid()
      reads this
    {
      Replay(steps) == Some(flow) && Faithful(flow) && (flow.stage.Broken? ==> mayFail)
    }

    constructor (mayFail: bool)
      ensures Valid() && flow == IDLE && this.mayFail == mayFail
    {
      this.mayFail := mayFail;
      steps := [];
      flow := IDLE;
    }

    ghost method Note(s: Step)
      requires Valid() && After(flow, s).Some? && (s.Failed? ==> mayFail)
      modifies this
      ensures Valid() && Some(flow) == After(old(flow), s)
    {
      assert (steps + [s])[..|steps|] == steps;
      StaysFaithful(flow, s);
      steps := steps + [s];
      flow := After(flow, s).value;
    }
  }

  // ----- both directions, interleaved -----

  datatype Side = Up | Down

  datatype Event = Event(side: Side, step: Step)

  datatype Pair = Pair(up: Flow, down: Flow)

  function Opposite(side: Side): Side { if side.Up? then Down else Up }

  function Get(p: Pair, side: Side): Flow { if side.Up? then p.up else p.down }

  function Put(p: Pair, side: Side, f: Flow): Pair { if side.Up? then p.(up := f) else p.(down := f) }

  predicate Over(p: Pair) { p.up.stage.Broken? || p.down.stage.Broken? }

  /** One step of one direction; once either has failed the join is over. */
  function Joint(p: Pair, e: Event): Option<Pair> {
    if Over(p) then None
    else
      match After(Get(p, e.side), e.step)
      case None => None
      case Some(f) => Some(Put(p, e.side, f))
  }

  function Run(events: seq<Event>): Option<Pair> {
    if |events| == 0 then Some(Pair(IDLE, IDLE))
    else
      var p := Run(events[..|events| - 1]);
      if p.None? then None else Joint(p.value, events[|events| - 1])
  }

  function Of(events: seq<Event>, side: Side): seq<Step> {
    if |events| == 0 then []
    else
      var last := events[|events| - 1];
      Of(events[..|events| - 1], side) + if last.side == side then [last.step] else []
  }

  ghost predicate NothingAfterFailure(events: seq<Event>) {
    forall i | 0 <= i < |events| - 1 :: !events[i].step.Failed?
  }

  predicate Fails(events: seq<Event>) {
    |events| > 0 && events[|events| - 1].step.Failed?
  }

  /** `p` is where each direction's own steps take it. */
  ghost predicate Projects(events: seq<Event>, p: Pair) {
    && Replay(Of(events, Up)) == Some(p.up) && Replay(Of(events, Down)) == Some(p.down)
    && (Over(p) <==> Fails(events))
  }

  ghost predicate Possible(events: seq<Event>) {
    Replay(Of(events, Up)).Some? && Replay(Of(events, Down)).Some? && NothingAfterFailure(events)
  }

  /**
    The directions do not disturb each other: an interleaving can happen exactly when each direction's steps can by
    themselves and nothing follows a failure, and it takes each direction where its own steps take it.
  */
  lemma {:induction false} DirectionsAreIndependent(events: seq<Event>)
    ensures Run(events).Some? <==> Possible(events)
    ensures Run(events).Some? ==> Projects(events, Run(events).value)
  {
    if |events| > 0 {
      var init, last := events[..|events| - 1], events[|events| - 1];
      assert events == init + [last];
      DirectionsAreIndependent(init);
      NoFailureBefore(init, last);
      OneMore(init, last);
      if Run(init).Some? {
        StepProjects(init, last, Run(init).value);
      }
    }
  }

  lemma NoFailureBefore(init: seq<Event>, last: Event)
    ensures NothingAfterFailure(init + [last]) <==> NothingAfterFailure(init) && !Fails(init)
  {
    var events := init + [last];
    assert forall i | 0 <= i < |init| :: events[i] == init[i];
  }

  lemma OneMore(init: seq<Event>, last: Event)
    ensures var own, other, events := Of(init, last.side), Of(init, Opposite(last.side)), init + [last];
            && Of(events, last.side) == own + [last.step] && Of(events, Opposite(last.side)) == other
            && Replay(own + [last.step]) == (if Replay(own).None? then None else After(Replay(own).value, last.step))
  {
    assert (init + [last])[..|init|] == init;
    var own, other := Of(init, last.side), Of(init, Opposite(last.side));
    assert (own + [last.step])[..|own|] == own;
    assert other + [] == other;
  }

  lemma JointStep(p: Pair, e: Event)
    requires Joint(p, e).Some?
    ensures var p' := Joint(p, e).value;
            && Some(Get(p', e.side)) == After(Get(p, e.side), e.step)
            && Get(p', Opposite(e.side)) == Get(p, Opposite(e.side))
            && (Over(p') <==> e.step.Failed?)
  {
  }

  lemma StepProjects(init: seq<Event>, last: Event, p: Pair)
    requires Projects(init, p)
    ensures Joint(p, last).Some? <==> !Fails(init) && Replay(Of(init + [last], last.side)).Some?
    ensures Joint(p, last).Some? ==> Projects(init + [last], Joint(p, last).value)
  {
    OneMore(init, last);
    assert Replay(Of(init, last.side)) == Some(Get(p, last.side));
    if Joint(p, last).Some? {
      var p' := Joint(p, last).value;
      JointStep(p, last);
      assert Replay(Of(init + [last], last.side)) == Some(Get(p', last.side));
      assert Replay(Of(init + [last], Opposite(last.side))) == Some(Get(p', Opposite(last.side)));
    }
  }

  /** At every point of every interleaving both directions are faithful, so each sends at most one shutdown. */
  lemma BothStayFaithful(events: seq<Event>)
    requires Run(events).Some?
    ensures Faithful(Run(events).value.up) && Faithful(Run(events).value.down)
  {
    DirectionsAreIndependent(events);
    AlwaysFaithful(Of(events, Up));
    AlwaysFaithful(Of(events, Down));
  }

  /** One direction's clean end leaves the other going: it can still do whatever it could, and the first stays ended. */
  lemma OtherGoesOn(events: seq<Event>, s: Step)
    requires Run(events).Some? && Run(events).value.up.stage.Finished?
    requires After(Run(events).value.down, s).Some? && !Run(events).value.down.stage.Broken?
    ensures var p := Run(events).value;
            Run(events + [Event(Down, s)]) == Some(Pair(p.up, After(p.down, s).value)) && p.up.shutdowns == 1
  {
    BothStayFaithful(events);
    assert (events + [Event(Down, s)])[..|events|] == events;
  }

  /** `before`, and then one direction alone. */
  function Then(before: seq<Event>, steps: seq<Step>, side: Side): seq<Event> {
    if |steps| == 0 then before
    else Then(before, steps[..|steps| - 1], side) + [Event(side, steps[|steps| - 1])]
  }

  lemma {:induction false} OneAlone(before: seq<Event>, steps: seq<Step>, side: Side, p: Pair, f: Flow)
    requires Run(before) == Some(p) && !Over(p) && Of(before, side) == [] && Get(p, side) == IDLE
    requires Replay(steps) == Some(f)
    ensures var events := Then(before, steps, side);
            && Run(events) == Some(Put(p, side, f))
            && Of(events, side) == steps && Of(events, Opposite(side)) == Of(before, Opposite(side))
  {
    if |steps| > 0 {
      var init, last := steps[..|steps| - 1], steps[|steps| - 1];
      OneAlone(before, init, side, p, Replay(init).value);
      var sofar := Then(before, init, side);
      assert (sofar + [Event(side, last)])[..|sofar|] == sofar;
      OneMore(sofar, Event(side, last));
    }
  }

  /** `events` is a run of the join in which the directions take just these steps and get to `p`. */
  ghost predicate Joins(events: seq<Event>, up: seq<Step>, down: seq<Step>, p: Pair) {
    Of(events, Up) == up && Of(events, Down) == down && Run(events) == Some(p)
  }

  /** Whatever two directions do by themselves, they can do together, unless both fail. */
  lemma TogetherPossible(up: seq<Step>, down: seq<Step>, p: Pair) returns (events: seq<Event>)
    requires Replay(up) == Some(p.up) && Replay(down) == Some(p.down)
    requires !(p.up.stage.Broken? && p.down.stage.Broken?)
    ensures Joins(events, up, down, p)
  {
    var idle := Pair(IDLE, IDLE);
    if p.up.stage.Broken? {
      OneAlone([], down, Down, idle, p.down);
      events := Then([], down, Down);
      OneAlone(events, up, Up, idle.(down := p.down), p.up);
      events := Then(events, up, Up);
    } else {
      OneAlone([], up, Up, idle, p.up);
      events := Then([], up, Up);
      OneAlone(events, down, Down, idle.(up := p.up), p.down);
      events := Then(events, down, Down);
    }
  }

  // ----- the loops -----

  lemma Wraps(a: nat, b: nat, c: nat)
    ensures ((a + b) % U64_LIMIT + c) % U64_LIMIT == (a + b + c) % U64_LIMIT
  {
  }

  lemma Extends(chunk: seq<Byte>, written: nat, n: nat)
    requires written + n <= |chunk|
    ensures chunk[..written] + chunk[written..][..n] == chunk[..written + n]
  {
  }

  /** Writes out a chunk that has been read, in as many steps as it takes, counting what has been accepted. */
  method PassOn(chunk: seq<Byte>, writer: Writer, counter: Counter, course: Course, token: Token)
    returns (r: Result<(), IoError>, cancelled: bool, ghost written: nat)
    requires counter.limit == U64_LIMIT && counter.value < U64_LIMIT && chunk != []
    requires course.Valid() && course.flow.stage.Writing? && course.flow.taken == course.flow.passed + |chunk|
    modifies writer`received, counter, course, token
    ensures (old(token.cancelled) ==> token.cancelled) && Excused(course, token)
    ensures course.Valid() && written <= |chunk| && (r.Err? ==> course.mayFail)
    ensures course.flow == old(course.flow).(passed := old(course.flow).passed + written, stage := course.flow.stage)
    ensures course.flow.stage == (if r.Err? then Broken(r.error) else if cancelled then Abandoned else Reading)
    ensures writer.received == old(writer.received) + chunk[..written]
    ensures counter.value == (old(counter.value) + written) % U64_LIMIT
  {
    ghost var f0, count0 := course.flow, counter.value;
    var done := 0;
    while done < |chunk|
      invariant done <= |chunk| && counter.value < U64_LIMIT && course.Valid()
      invariant old(token.cancelled) ==> token.cancelled
      invariant course.flow == f0.(passed := f0.passed + done, stage := if done == |chunk| then Reading else Writing)
      invariant writer.received == old(writer.received) + chunk[..done]
      invariant counter.value == (count0 + done) % U64_LIMIT
    {
      cancelled := token.Suspend(course.mayFail);
      if cancelled {
        course.Note(Dropped);
        return Ok(()), true, done;
      }
      var n := writer.Write(chunk[done..], course.mayFail);
      if n.Err? || n.value == 0 {
        var error := if n.Err? then n.error else WriteZero;
        course.Note(Failed(error));
        return Err(error), false, done;
      }
      course.Note(Gave(n.value));
      Extends(chunk, done, n.value);
      Wraps(count0, done, n.value);
      counter.FetchAdd(n.value);
      done := done + n.value;
    }
    return Ok(()), false, done;
  }

  /** One turn: reads a chunk and passes it on, or finds the end. */
  method CopyChunk(reader: Reader, writer: Writer, counter: Counter, course: Course, token: Token, buffer: array<Byte>)
    returns (r: Result<(), IoError>, going: bool)
    requires reader.Valid() && counter.limit == U64_LIMIT && counter.value < U64_LIMIT
    requires buffer.Length == RELAY_BUFFER_BYTES
    requires course.Valid() && course.flow == Even(course.flow.taken)
    modifies reader`position, writer, counter, course, token, buffer
    ensures (old(token.cancelled) ==> token.cancelled) && Excused(course, token)
    ensures reader.Valid() && course.Valid() && old(reader.position) <= reader.position
    ensures course.flow.taken == old(course.flow).taken + reader.position - old(reader.position)
    ensures old(course.flow).passed <= course.flow.passed
    ensures writer.received == old(writer.received)
            + reader.arrives[old(reader.position)..][..course.flow.passed - old(course.flow).passed]
    ensures writer.shutdowns == old(writer.shutdowns) + course.flow.shutdowns
    ensures counter.value == (old(counter.value) + course.flow.passed - old(course.flow).passed) % U64_LIMIT
    ensures course.flow.shutdowns == 1 ==> reader.position == |reader.arrives|
    ensures going ==> r.Ok? && course.flow == Even(course.flow.taken) && old(reader.position) < reader.position
    ensures !going ==> Stopped(course.flow, r)
  {
    var cancelled := token.Suspend(course.mayFail);
    if cancelled {
      course.Note(Dropped);
      return Ok(()), false;
    }
    var count := reader.Read(buffer, course.mayFail);
    if count.Err? {
      course.Note(Failed(count.error));
      return Err(count.error), false;
    }
    if count.value == 0 {
      course.Note(AtEnd);
      r := End(writer, course, token);
      return r, false;
    }
    var chunk := buffer[..count.value];
    assert chunk == reader.arrives[old(reader.position)..][..count.value];
    course.Note(Took(count.value));
    ghost var written;
    r, cancelled, written := PassOn(chunk, writer, counter, course, token);
    assert chunk[..written] == reader.arrives[old(reader.position)..][..written];
    going := r.Ok? && !cancelled;
  }

  /** A direction is given up only when cancelled, or when the other has failed. */
  ghost predicate Excused(course: Course, token: Token)
    reads course, token
  {
    course.flow.stage.Abandoned? ==> token.cancelled || !course.mayFail
  }

  /** How a direction has ended when it returns `r`. */
  ghost predicate Stopped(f: Flow, r: Result<(), IoError>) {
    if r.Err? then f.stage == Broken(r.error) else f.stage.Finished? || f.stage.Abandoned?
  }

  /** What was taken comes from the reader; what was passed went to the writer and was counted. */
  twostate predicate Carried(reader: Reader, writer: Writer, counter: Counter, f: Flow)
    requires old(reader.Valid())
    reads reader, writer, counter
  {
    && reader.Valid() && f.passed <= f.taken && reader.position == old(reader.position) + f.taken
    && writer.received == old(writer.received) + reader.arrives[old(reader.position)..][..f.passed]
    && writer.shutdowns == old(writer.shutdowns) + f.shutdowns
    && counter.value == (old(counter.value) + f.passed) % U64_LIMIT
  }

  /**
    One direction.  It follows the steps of a `Flow`, so that whenever it stops, the receiver has a prefix of what was
    sent, at most one buffer behind; the counter has grown by just that much, and it finishes exactly by delivering
    everything and shutting down once.
  */
  method CopyDirection(reader: Reader, writer: Writer, counter: Counter, course: Course, token: Token)
    returns (r: Result<(), IoError>)
    requires reader.Valid() && counter.limit == U64_LIMIT && counter.value < U64_LIMIT
    requires course.Valid() && course.flow == IDLE
    modifies reader, writer, counter, course, token
    ensures (old(token.cancelled) ==> token.cancelled) && Excused(course, token)
    ensures reader.Valid() && course.Valid() && Carried(reader, writer, counter, course.flow)
    ensures course.flow.shutdowns == 1 ==> reader.position == |reader.arrives|
    ensures Stopped(course.flow, r)
  {
    var buffer := new Byte[RELAY_BUFFER_BYTES](_ => 0);
    ghost var source, count0 := reader.arrives[reader.position..], counter.value;
    var going := true;
    r := Ok(());
    while going
      invariant reader.Valid() && course.Valid() && reader.position == old(reader.position) + course.flow.taken
      invariant writer.received == old(writer.received) + source[..course.flow.passed]
      invariant writer.shutdowns == old(writer.shutdowns) + course.flow.shutdowns
      invariant counter.value == (count0 + course.flow.passed) % U64_LIMIT < U64_LIMIT
      invariant course.flow.shutdowns == 1 ==> reader.position == |reader.arrives|
      invariant if going then course.flow == Even(course.flow.taken) else Stopped(course.flow, r)
      invariant (old(token.cancelled) ==> token.cancelled) && Excused(course, token)
      decreases going, |reader.arrives| - reader.position
    {
      ghost var sofar, at := course.flow.passed, reader.position;
      r, going := CopyChunk(reader, writer, counter, course, token, buffer);
      Continues(old(writer.received), source, sofar, course.flow.passed - sofar, reader.arrives[at..]);
      Wraps(count0, sofar, course.flow.passed - sofar);
    }
  }

  /** A flow between two chunks. */
  ghost function Even(bytes: nat): Flow { Flow(bytes, bytes, 0, Reading) }

  lemma Continues(before: seq<Byte>, source: seq<Byte>, sofar: nat, n: nat, rest: seq<Byte>)
    requires sofar <= |source| && rest == source[sofar..] && n <= |rest|
    ensures before + source[..sofar] + rest[..n] == before + source[..sofar + n]
  {
  }

  /** The reader is exhausted: the writer is shut down, unless cancellation comes first. */
  method End(writer: Writer, course: Course, token: Token) returns (r: Result<(), IoError>)
    requires course.Valid() && course.flow.stage.Ending?
    modifies writer`shutdowns, course, token
    ensures (old(token.cancelled) ==> token.cancelled) && Excused(course, token)
    ensures course.Valid()
    ensures course.flow.taken == old(course.flow).taken && course.flow.passed == old(course.flow).passed
    ensures writer.shutdowns == old(writer.shutdowns) + course.flow.shutdowns
    ensures Stopped(course.flow, r)
  {
    var cancelled := token.Suspend(course.mayFail);
    if cancelled {
      course.Note(Dropped);
      return Ok(());
    }
    r := writer.Shutdown(course.mayFail);
    course.Note(if r.Err? then Failed(r.error) else ShutDown);
  }

  class TrafficCounters {
    const uploaded: Counter
    const downloaded: Counter
    const activeConnections: Counter

    constructor ()
      ensures fresh(uploaded) && fresh(downloaded) && fresh(activeConnections)
      ensures uploaded != downloaded && uploaded != activeConnections && downloaded != activeConnections
      ensures uploaded.limit == downloaded.limit == U64_LIMIT && activeConnections.limit == U32_LIMIT
      ensures uploaded.value == downloaded.value == activeConnections.value == 0
    {
      uploaded := new Counter(U64_LIMIT);
      downloaded := new Counter(U64_LIMIT);
      activeConnections := new Counter(U32_LIMIT);
    }

    ghost predicate Valid()
      reads uploaded, downloaded, activeConnections
    {
      && uploaded != downloaded && uploaded != activeConnections && downloaded != activeConnections
      && uploaded.limit == downloaded.limit == U64_LIMIT && activeConnections.limit == U32_LIMIT
      && uploaded.value < U64_LIMIT && downloaded.value < U64_LIMIT && activeConnections.value < U32_LIMIT
    }
  }

  /** All that was to be read has been written, and the writer was shut down. */
  twostate predicate Delivered(reader: Reader, writer: Writer)
    requires old(reader.Valid())
    reads reader, writer
  {
    && writer.received == old(writer.received) + reader.arrives[old(reader.position)..]
    && writer.shutdowns == old(writer.shutdowns) + 1
  }

  /**
    The join of both directions.  They share no state, so each is taken as far as it gets; the result is that of some
    joint run, and which others have the same result is said by `DirectionsAreIndependent`.  An error in one drops the
    other, so at most one is seen.
  */
  method CopyBoth(localRead: Reader, remoteWrite: Writer, remoteRead: Reader, localWrite: Writer,
                  uploaded: Counter, downloaded: Counter, token: Token)
    returns (r: Result<(), IoError>, up: Course, down: Course)
    requires localRead.Valid() && remoteRead.Valid()
    requires localRead != remoteRead && localWrite != remoteWrite && uploaded != downloaded
    requires uploaded.limit == downloaded.limit == U64_LIMIT
    requires uploaded.value < U64_LIMIT && downloaded.value < U64_LIMIT
    modifies localRead, remoteWrite, remoteRead, localWrite, uploaded, downloaded, token
    ensures r.Ok? && !token.cancelled ==> Delivered(localRead, remoteWrite) && Delivered(remoteRead, localWrite)
    ensures fresh(up) && fresh(down) && up != down && up.Valid() && down.Valid()
    ensures Carried(localRead, remoteWrite, uploaded, up.flow)
    ensures Carried(remoteRead, localWrite, downloaded, down.flow)
    ensures !(up.flow.stage.Broken? && down.flow.stage.Broken?)
    ensures r.Ok? <==> !Over(Pair(up.flow, down.flow))
    ensures r.Err? ==> Broken(r.error) in {up.flow.stage, down.flow.stage}
  {
    up := new Course(true);
    r := CopyDirection(localRead, remoteWrite, uploaded, up, token);
    down := new Course(r.Ok?);
    var downEnd := CopyDirection(remoteRead, localWrite, downloaded, down, token);
    if r.Ok? {
      r := downEnd;
    }
  }

  /** One connection, counted while it lasts. */
  method RelayBidirectional(localRead: Reader, remoteWrite: Writer, remoteRead: Reader, localWrite: Writer,
                            counters: TrafficCounters, token: Token)
    returns (r: Result<(), IoError>, up: Course, down: Course, ghost events: seq<Event>)
    requires localRead.Valid() && remoteRead.Valid() && counters.Valid()
    requires localRead != remoteRead && localWrite != remoteWrite
    modifies localRead, remoteWrite, remoteRead, localWrite
    modifies counters.uploaded, counters.downloaded, counters.activeConnections, token
    ensures counters.Valid() && fresh(up) && fresh(down) && up != down
    ensures Carried(localRead, remoteWrite, counters.uploaded, up.flow)
    ensures Carried(remoteRead, localWrite, counters.downloaded, down.flow)
    ensures counters.activeConnections.value == old(counters.activeConnections.value)
    // without an error or cancellation everything is delivered, and each side is told so once
    ensures r.Ok? && !token.cancelled ==> Delivered(localRead, remoteWrite) && Delivered(remoteRead, localWrite)
    ensures Joins(events, up.steps, down.steps, Pair(up.flow, down.flow))
    ensures r.Ok? <==> !Over(Pair(up.flow, down.flow))
    ensures r.Err? ==> Broken(r.error) in {up.flow.stage, down.flow.stage}
  {
    counters.activeConnections.FetchAdd(1);
    r, up, down := CopyBoth(localRead, remoteWrite, remoteRead, localWrite, counters.uploaded, counters.downloaded,
                            token);
    counters.activeConnections.FetchSub(1);
    events := TogetherPossible(up.steps, down.steps, Pair(up.flow, down.flow));
  }
}
