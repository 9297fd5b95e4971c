/**
  A chain of SSH sessions: each later session's transport is a channel of its predecessor.  The ledger
  admits only histories that treat the sessions as a stack.
*/
module Chain {
  import opened Wrappers
  import opened Domain

  const MAX_HOPS: nat := 16

  datatype Session = Session(id: nat, host: SshHost, carrier: Option<nat>, binding: Option<Endpoint>)

  datatype ChainError = Empty | TooManyHops | Hop(hop: nat, source: string)

  /** How an attempt at one hop goes; cancellation and deadlines are refusals too. */
  datatype HopAnswer = Connected | ChannelRefused(reason: string) | SessionRefused(why: string)

  datatype Pong = Pong(rtt: nat) | NoPong(reason: string)

  // ----- the ledger -----

  datatype Op = Open(session: Session) | Close(id: nat)

  function Top(live: seq<Session>): Option<nat> {
    if live == [] then None else Some(live[|live| - 1].id)
  }

  /** A session opens on top of the newest live one; only the newest may close. */
  function Post(live: seq<Session>, op: Op): Option<seq<Session>> {
    match op
    case Open(s) =>
      if s.carrier == Top(live) && (live != [] ==> Top(live).value < s.id) then Some(live + [s]) else None
    case Close(id) =>
      if Top(live) == Some(id) then Some(live[..|live| - 1]) else None
  }

  function Replay(ops: seq<Op>): Option<seq<Session>> {
    if ops == [] then Some([])
    else
      var before := Replay(ops[..|ops| - 1]);
      if before.None? then None else Post(before.value, ops[|ops| - 1])
  }

  /** Each live session rides on the one below it, and ids grow upwards. */
  ghost predicate Linked(live: seq<Session>) {
    live == [] ||
    (var below, top := live[..|live| - 1], live[|live| - 1];
     Linked(below) && top.carrier == Top(below) && (below != [] ==> Top(below).value < top.id))
  }

  lemma {:induction false} LiveIsLinked(ops: seq<Op>)
    requires Replay(ops).Some?
    ensures Linked(Replay(ops).value)
  {
    if ops != [] {
      LiveIsLinked(ops[..|ops| - 1]);
      var live, op := Replay(ops[..|ops| - 1]).value, ops[|ops| - 1];
      if op.Open? {
        assert (live + [op.session])[..|live|] == live;
      }
    }
  }

  /** Nothing rides on the top of a stack. */
  lemma {:induction false} NothingRidesOnTop(live: seq<Session>)
    requires Linked(live) && live != []
    ensures forall s | s in live :: s.id <= Top(live).value && (s.carrier.Some? ==> s.carrier.value < Top(live).value)
  {
    var below := live[..|live| - 1];
    if below != [] {
      NothingRidesOnTop(below);
    }
    assert forall s | s in live :: s in below || s == live[|live| - 1];
  }

  /** In every history of explicit opening and closing, nothing rides any more on a session that closes. */
  lemma CarrierOutlivesRider(ops: seq<Op>, i: nat)
    requires Replay(ops).Some? && i < |ops| && ops[i].Close?
    ensures Replay(ops[..i]).Some?
    ensures forall s | s in Replay(ops[..i]).value :: s.carrier != Some(ops[i].id)
  {
    Prefix(ops, i + 1);
    assert ops[..i + 1][..i] == ops[..i];
    LiveIsLinked(ops[..i]);
    NothingRidesOnTop(Replay(ops[..i]).value);
  }

  lemma {:induction false} Prefix(ops: seq<Op>, n: nat)
    requires Replay(ops).Some? && n <= |ops|
    ensures Replay(ops[..n]).Some?
  {
    if n < |ops| {
      Prefix(ops[..|ops| - 1], n);
      assert ops[..|ops| - 1][..n] == ops[..n];
    } else {
      assert ops[..n] == ops;
    }
  }

  // ----- what a connection attempt does -----

  function Planned(hops: seq<SshHost>, remote: Option<Endpoint>, i: nat): Session
    requires i < |hops|
  {
    Session(i, hops[i], if i == 0 then None else Some(i - 1), if i == |hops| - 1 then remote else None)
  }

  /** The first `n` sessions of a chain: each carried by its predecessor, the remote binding on the final hop only. */
  function Sessions(hops: seq<SshHost>, remote: Option<Endpoint>, n: nat): (s: seq<Session>)
    requires n <= |hops|
    ensures |s| == n
  {
    seq(n, i requires 0 <= i < n => Planned(hops, remote, i))
  }

  /** Each session reaches its hop, riding on the one before it; only that of the final hop has the remote binding. */
  ghost predicate FollowsHops(s: seq<Session>, hops: seq<SshHost>, remote: Option<Endpoint>) {
    && |s| <= |hops|
    && (forall i | 0 <= i < |s| :: s[i].host == hops[i])
    && (forall i | 0 <= i < |s| :: s[i].carrier == if i == 0 then None else Some(s[i - 1].id))
    && (forall i | 0 <= i < |s| :: s[i].binding == if i + 1 == |hops| then remote else None)
    && (forall i, j | 0 <= i < j < |s| :: s[i].id != s[j].id)
  }

  lemma SessionsFollowHops(hops: seq<SshHost>, remote: Option<Endpoint>, n: nat)
    requires n <= |hops|
    ensures FollowsHops(Sessions(hops, remote, n), hops, remote)
  {
  }

  function Opening(s: seq<Session>): seq<Op> {
    seq(|s|, i requires 0 <= i < |s| => Open(s[i]))
  }

  /** From the newest back to the oldest. */
  function Closing(s: seq<Session>): seq<Op> {
    seq(|s|, i requires 0 <= i < |s| => Close(s[|s| - 1 - i].id))
  }

  lemma NextSession(hops: seq<SshHost>, remote: Option<Endpoint>, i: nat)
    requires i < |hops|
    ensures Sessions(hops, remote, i + 1) == Sessions(hops, remote, i) + [Planned(hops, remote, i)]
    ensures Opening(Sessions(hops, remote, i + 1)) ==
            Opening(Sessions(hops, remote, i)) + [Open(Planned(hops, remote, i))]
    ensures Planned(hops, remote, i).carrier == Top(Sessions(hops, remote, i))
    ensures i > 0 ==> Top(Sessions(hops, remote, i)) == Some(i - 1)
  {
  }

  /** Did the attempts at the hops before `n` all succeed? */
  ghost predicate Reaches(answers: nat -> HopAnswer, n: nat) {
    forall i | 0 <= i < n :: answers(i).Connected?
  }

  class SshChain {
    var sessions: seq<Session>
    ghost var ops: seq<Op>

    ghost predicate Valid()
      reads this
    {
      Replay(ops) == Some(sessions)
    }

    constructor ()
      ensures Valid() && sessions == [] && ops == []
    {
      sessions := [];
      ops := [];
    }

    method Push(session: Session)
      requires Valid() && Post(sessions, Open(session)).Some?
      modifies this
      ensures Valid() && sessions == old(sessions) + [session] && ops == old(ops) + [Open(session)]
    {
      assert (ops + [Open(session)])[..|ops|] == ops;
      sessions := sessions + [session];
      ops := ops + [Open(session)];
    }

    /** Joins every session, each before the one that carries it. */
    method DisconnectAll()
      requires Valid()
      modifies this
      ensures Valid() && sessions == [] && ops == old(ops) + Closing(old(sessions))
    {
      ghost var all := sessions;
      while sessions != []
        invariant Valid() && sessions <= all
        invariant ops == old(ops) + Closing(all)[..|all| - |sessions|]
        decreases |sessions|
      {
        var session := sessions[|sessions| - 1];
        ghost var done := |all| - |sessions|;
        assert Closing(all)[..done + 1] == Closing(all)[..done] + [Close(session.id)];
        assert (ops + [Close(session.id)])[..|ops|] == ops;
        sessions := sessions[..|sessions| - 1];
        ops := ops + [Close(session.id)];
      }
    }

    method PingAll(pongs: nat -> Pong) returns (r: Result<seq<nat>, ChainError>)
      ensures r.Ok? <==> forall i | 0 <= i < |sessions| :: pongs(i).Pong?
      ensures r.Ok? ==> |r.value| == |sessions| && forall i | 0 <= i < |sessions| :: pongs(i) == Pong(r.value[i])
      ensures r.Err? ==>
        && r.error.Hop? && 1 <= r.error.hop <= |sessions| && pongs(r.error.hop - 1) == NoPong(r.error.source)
        && forall i | 0 <= i < r.error.hop - 1 :: pongs(i).Pong?
    {
      var rtts := [];
      for index := 0 to |sessions|
        invariant |rtts| == index && forall i | 0 <= i < index :: pongs(i) == Pong(rtts[i])
      {
        match pongs(index) {
          case NoPong(reason) => return Err(Hop(index + 1, reason));
          case Pong(rtt) => rtts := rtts + [rtt];
        }
      }
      return Ok(rtts);
    }
  }

  /**
    Connects hop by hop.  Success leaves exactly one live session per hop; a failure at hop k means that exactly
    k - 1 sessions were opened and every one of them was closed again, newest first.
  */
  method ConnectWithApproval(hops: seq<SshHost>, remote: Option<Endpoint>, answers: nat -> HopAnswer)
    returns (r: Result<SshChain, ChainError>, ghost ops: seq<Op>)
    ensures hops == [] <==> r == Err(Empty)
    ensures |hops| > 16 <==> r == Err(TooManyHops)
    ensures r.Err? && !r.error.Hop? ==> ops == []
    ensures r.Ok? <==> 0 < |hops| <= 16 && Reaches(answers, |hops|)
    ensures r.Ok? ==>
      && fresh(r.value) && r.value.Valid() && r.value.sessions == Sessions(hops, remote, |hops|)
      && FollowsHops(r.value.sessions, hops, remote)
      && ops == r.value.ops == Opening(r.value.sessions)
    ensures r.Err? && r.error.Hop? ==>
      && 1 <= r.error.hop <= |hops| && Reaches(answers, r.error.hop - 1)
      && answers(r.error.hop - 1) in {ChannelRefused(r.error.source), SessionRefused(r.error.source)}
      && ops == Opening(Sessions(hops, remote, r.error.hop - 1)) + Closing(Sessions(hops, remote, r.error.hop - 1))
      && Replay(ops) == Some([])
  {
    if hops == [] {
      return Err(Empty), [];
    }
    if |hops| > MAX_HOPS {
      return Err(TooManyHops), [];
    }
    var chain := new SshChain();
    var index := 0;
    while index < |hops|
      invariant index <= |hops| && fresh(chain) && chain.Valid()
      invariant chain.sessions == Sessions(hops, remote, index) && chain.ops == Opening(chain.sessions)
      invariant Reaches(answers, index)
    {
      if !answers(index).Connected? {
        var reason := if answers(index).ChannelRefused? then answers(index).reason else answers(index).why;
        chain.DisconnectAll();
        return Err(Hop(index + 1, reason)), chain.ops;
      }
      NextSession(hops, remote, index);
      chain.Push(Planned(hops, remote, index));
      index := index + 1;
    }
    SessionsFollowHops(hops, remote, index);
    return Ok(chain), chain.ops;
  }
}
