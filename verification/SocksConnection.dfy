/**
  Reading a CONNECT request from a client's stream, and the handler of one accepted connection.

  A stream delivers `input` and then ends; that covers a client that closes, a read that fails and a
  handshake that times out or is cancelled, which all stop the parser at some byte.  Writing fails once
  `capacity` bytes have been sent, possibly in the middle of a message.
*/
module SocksConnection {
  import opened Wrappers
  import opened Utf8
  import opened Socks5

  const ADDRESS_BYTES: nat := 255

  /** As much of `s` as there is room for. */
  function Cut(s: seq<Byte>, room: nat): seq<Byte> {
    if |s| <= room then s else s[..room]
  }

  lemma CutConcat(s: seq<Byte>, t: seq<Byte>, room: nat)
    requires |s| <= room
    ensures Cut(s + t, room) == s + Cut(t, room - |s|)
  {
  }

  /** What reading something amounts to that `verdict` judges and `sent` answers, with room for `room` bytes. */
  ghost predicate Outcome<T>(r: Result<T, SocksError>, verdict: Result<(T, nat), SocksError>, sent: seq<Byte>,
                             unread: seq<Byte>, unread': seq<Byte>, room: nat)
  {
    if |sent| > room then r == Err(Io)
    else
      match verdict
      case Ok((d, n)) => r == Ok(d) && n <= |unread| && unread' == unread[n..]
      case Err(e) => r == Err(e)
  }

  lemma SelectedThen(s: seq<Byte>, r: Result<Destination, SocksError>, unread': seq<Byte>, room: nat)
    requires MethodsVerdict(s).Ok? && 2 <= room
    requires var rest := s[MethodsVerdict(s).value..];
             Outcome(r, RequestVerdict(rest), Refusal(rest), rest, unread', room - 2)
    ensures Outcome(r, Verdict(s), Answer(s), s, unread', room)
    ensures Cut(Answer(s), room) == Selection(s) + Cut(Refusal(s[MethodsVerdict(s).value..]), room - 2)
  {
    CutConcat(Selection(s), Refusal(s[MethodsVerdict(s).value..]), room);
  }

  lemma RequestThen(s: seq<Byte>, r: Result<Destination, SocksError>, unread': seq<Byte>, room: nat)
    requires HeaderVerdict(s).Ok? && (r.Ok? ==> r.value.port != 0)
    requires var v := DestinationVerdict(HeaderVerdict(s).value, s[4..]);
             Outcome(r, v, Complaint(v), s[4..], unread', room)
    ensures Outcome(r, RequestVerdict(s), Refusal(s), s, unread', room)
    ensures Refusal(s) == Complaint(DestinationVerdict(HeaderVerdict(s).value, s[4..]))
  {
    var v := DestinationVerdict(HeaderVerdict(s).value, s[4..]);
    if r.Ok? {
      assert s[4..][v.value.1..] == s[4 + v.value.1..];
    }
  }

  lemma HeaderRefused(s: seq<Byte>)
    requires HeaderVerdict(s).Err?
    ensures RequestVerdict(s) == Err(HeaderVerdict(s).error) && Refusal(s) == Complaint(HeaderVerdict(s))
  {
  }

  lemma PortRefused(s: seq<Byte>)
    requires HeaderVerdict(s).Ok?
    requires var v := DestinationVerdict(HeaderVerdict(s).value, s[4..]); v.Ok? && v.value.0.port == 0
    ensures RequestVerdict(s) == Err(PortIsZero) && Refusal(s) == ReplyPart(PortIsZero)
  {
  }

  class Stream {
    const input: seq<Byte>
    const capacity: nat
    var position: nat
    var output: seq<Byte>

    ghost predicate Valid()
      reads this
    {
      position <= |input| && |output| <= capacity
    }

    ghost function Unread(): seq<Byte>
      reads this
      requires Valid()
    {
      input[position..]
    }

    ghost function Room(): nat
      reads this
      requires Valid()
    {
      capacity - |output|
    }

    constructor (input: seq<Byte>, capacity: nat)
      ensures Valid() && position == 0 && output == [] && this.input == input && this.capacity == capacity
    {
      this.input := input;
      this.capacity := capacity;
      position := 0;
      output := [];
    }

    /** Fills `buffer[..count]` or consumes what is left and fails. */
    method ReadExact(buffer: array<Byte>, count: nat) returns (ok: bool)
      requires Valid() && count <= buffer.Length
      modifies this`position, buffer
      ensures Valid() && ok == (count <= |old(Unread())|)
      ensures ok ==> buffer[..count] == old(Unread())[..count] && Unread() == old(Unread())[count..]
      ensures !ok ==> Unread() == []
    {
      var i := 0;
      while i < count && position < |input|
        invariant i <= count && position == old(position) + i <= |input|
        invariant buffer[..i] == input[old(position)..position]
      {
        buffer[i] := input[position];
        i := i + 1;
        position := position + 1;
      }
      ok := i == count;
    }

    /** Reads `count` bytes through a fixed buffer. */
    method Take(count: nat) returns (bytes: Option<seq<Byte>>)
      requires Valid() && count <= ADDRESS_BYTES
      modifies this`position
      ensures Valid() && bytes.Some? == (count <= |old(Unread())|)
      ensures bytes.Some? ==> bytes.value == old(Unread())[..count] && Unread() == old(Unread())[count..]
    {
      var buffer := new Byte[ADDRESS_BYTES](_ => 0);
      var ok := ReadExact(buffer, count);
      bytes := if ok then Some(buffer[..count]) else None;
    }

    /** Repeats partial writes until all is sent or the stream fails. */
    method WriteAll(bytes: seq<Byte>) returns (ok: bool)
      requires Valid()
      modifies this`output
      ensures Valid() && ok == (|bytes| <= old(Room()))
      ensures output == old(output) + Cut(bytes, old(Room()))
    {
      var sent := 0;
      while sent < |bytes|
        invariant sent <= |bytes| && Valid() && output == old(output) + bytes[..sent]
      {
        if |output| == capacity {
          return false;
        }
        var n: nat :| 0 < n <= |bytes| - sent && |output| + n <= capacity;
        output := output + bytes[sent..sent + n];
        sent := sent + n;
      }
      return true;
    }

    method Reply(reply: SocksReply) returns (ok: bool)
      requires Valid()
      modifies this`output
      ensures Valid() && ok == (10 <= old(Room()))
      ensures output == old(output) + Cut(ReplyBytes(reply), old(Room()))
    {
      ok := WriteAll(ReplyBytes(reply));
    }

    /** Reports `error` to the client and returns it, unless even that fails. */
    method Refuse(reply: SocksReply, error: SocksError) returns (e: SocksError)
      requires Valid() && ReplyTo(error) == Some(reply)
      modifies this`output
      ensures Valid() && output == old(output) + Cut(ReplyPart(error), old(Room()))
      ensures e == if |ReplyPart(error)| <= old(Room()) then error else Io
    {
      var ok := Reply(reply);
      e := if ok then error else Io;
    }

    method ReadPort() returns (r: Result<nat, SocksError>)
      requires Valid()
      modifies this`position
      ensures Valid() && r.Ok? == (2 <= |old(Unread())|)
      ensures r.Ok? ==> r.value == PortAt(old(Unread()), 0) && Unread() == old(Unread())[2..]
      ensures r.Err? ==> r.error == Io
    {
      var bytes := Take(2);
      r := if bytes.None? then Err(Io) else Ok(PortAt(bytes.value, 0));
    }

    method ReadGreeting() returns (r: Result<seq<Byte>, SocksError>)
      requires Valid()
      modifies this`position
      ensures Valid() && r == GreetingVerdict(old(Unread()))
      ensures r.Ok? ==> Unread() == old(Unread())[2 + |r.value|..]
    {
      ghost var s := Unread();
      var greeting := Take(2);
      if greeting.None? {
        return Err(Io);
      }
      if greeting.value[0] != VERSION || greeting.value[1] == 0 {
        return Err(InvalidGreeting);
      }
      var methods := Take(At(greeting.value, 1));
      assert At(s, 1) == At(greeting.value, 1) && (methods.Some? ==> s[2..2 + At(s, 1)] == s[2..][..At(s, 1)]);
      r := if methods.None? then Err(Io) else Ok(methods.value);
    }

    /** Greeting and method selection. */
    method SelectMethod() returns (r: Result<(), SocksError>)
      requires Valid()
      modifies this`position, this`output
      ensures Valid()
      ensures var v, s := MethodsVerdict(old(Unread())), Selection(old(Unread()));
              && output == old(output) + Cut(s, old(Room()))
              && (|s| > old(Room()) ==> r == Err(Io))
              && (|s| <= old(Room()) ==> r.Ok? == v.Ok? && (v.Err? ==> r.error == v.error))
              && (r.Ok? ==> Unread() == old(Unread())[v.value..])
    {
      var methods := ReadGreeting();
      if methods.Err? {
        return Err(methods.error);
      }
      if NO_AUTH !in methods.value {
        var ok := WriteAll([VERSION, NO_METHOD]);
        return Err(if ok then NoAcceptedMethod else Io);
      }
      var ok := WriteAll([VERSION, NO_AUTH]);
      r := if ok then Ok(()) else Err(Io);
    }

    method ReadIp(kind: Byte, size: nat) returns (r: Result<Destination, SocksError>)
      requires Valid() && ((kind == 1 && size == 4) || (kind == 4 && size == 16))
      modifies this`position
      ensures Valid() && Outcome(r, DestinationVerdict(kind, old(Unread())), [], old(Unread()), Unread(), Room())
    {
      var address := Take(size);
      if address.None? {
        return Err(Io);
      }
      var port := ReadPort();
      if port.Err? {
        return Err(Io);
      }
      r := Ok(if kind == 1 then Ipv4(address.value, port.value) else Ipv6(address.value, port.value));
    }

    method ReadHost() returns (r: Result<string, SocksError>)
      requires Valid()
      modifies this`position, this`output
      ensures Valid() && output == old(output) + Cut(Complaint(HostVerdict(old(Unread()))), old(Room()))
      ensures var v := HostVerdict(old(Unread()));
              Outcome(r, v, Complaint(v), old(Unread()), Unread(), old(Room()))
    {
      ghost var s := Unread();
      var length := Take(1);
      if length.None? {
        return Err(Io);
      }
      if length.value[0] == 0 {
        var e := Refuse(AddressTypeNotSupported, EmptyDomain);
        return Err(e);
      }
      var bytes := Take(At(length.value, 0));
      assert At(s, 0) == At(length.value, 0);
      if bytes.None? {
        return Err(Io);
      }
      assert s[1..1 + At(s, 0)] == s[1..][..At(s, 0)];
      var host := Decode(bytes.value);
      if host.None? {
        var e := Refuse(AddressTypeNotSupported, DomainNotUtf8);
        return Err(e);
      }
      r := Ok(host.value);
    }

    method ReadName() returns (r: Result<Destination, SocksError>)
      requires Valid()
      modifies this`position, this`output
      ensures Valid() && output == old(output) + Cut(Complaint(NameVerdict(old(Unread()))), old(Room()))
      ensures var v := NameVerdict(old(Unread()));
              Outcome(r, v, Complaint(v), old(Unread()), Unread(), old(Room()))
    {
      var host := ReadHost();
      if host.Err? {
        return Err(host.error);
      }
      var port := ReadPort();
      if port.Err? {
        return Err(Io);
      }
      r := Ok(Name(host.value, port.value));
    }

    method ReadDestination(kind: Byte) returns (r: Result<Destination, SocksError>)
      requires Valid()
      modifies this`position, this`output
      ensures Valid() && output == old(output) + Cut(Complaint(DestinationVerdict(kind, old(Unread()))), old(Room()))
      ensures var v := DestinationVerdict(kind, old(Unread()));
              Outcome(r, v, Complaint(v), old(Unread()), Unread(), old(Room()))
    {
      if kind == 1 {
        r := ReadIp(1, 4);
      } else if kind == 3 {
        r := ReadName();
      } else if kind == 4 {
        r := ReadIp(4, 16);
      } else {
        var e := Refuse(AddressTypeNotSupported, UnsupportedAddressType);
        r := Err(e);
      }
    }

    method ReadHeader() returns (r: Result<Byte, SocksError>)
      requires Valid()
      modifies this`position, this`output
      ensures Valid()
      ensures var v := HeaderVerdict(old(Unread()));
              var refusal := Complaint(v);
              && output == old(output) + Cut(refusal, old(Room()))
              && r == (if |refusal| > old(Room()) then Err(Io) else v)
              && (v.Ok? ==> Unread() == old(Unread())[4..])
    {
      var header := Take(4);
      if header.None? {
        return Err(Io);
      }
      if header.value[0] != VERSION || header.value[2] != 0 {
        var e := Refuse(GeneralFailure, InvalidHeader);
        return Err(e);
      }
      if header.value[1] != CONNECT {
        var e := Refuse(CommandNotSupported, OnlyConnect);
        return Err(e);
      }
      r := Ok(header.value[3]);
    }

    method ReadRequest() returns (r: Result<Destination, SocksError>)
      requires Valid()
      modifies this`position, this`output
      ensures Valid() && output == old(output) + Cut(Refusal(old(Unread())), old(Room()))
      ensures Outcome(r, RequestVerdict(old(Unread())), Refusal(old(Unread())), old(Unread()), Unread(), old(Room()))
    {
      ghost var s := Unread();
      var kind := ReadHeader();
      if kind.Err? {
        HeaderRefused(s);
        return Err(kind.error);
      }
      r := ReadBody(kind.value, s);
    }

    /** What follows the header of the request `s`. */
    method ReadBody(kind: Byte, ghost s: seq<Byte>) returns (r: Result<Destination, SocksError>)
      requires Valid() && HeaderVerdict(s) == Ok(kind) && Unread() == s[4..]
      modifies this`position, this`output
      ensures Valid() && output == old(output) + Cut(Refusal(s), old(Room()))
      ensures Outcome(r, RequestVerdict(s), Refusal(s), s, Unread(), old(Room()))
    {
      ghost var room := Room();
      r := ReadDestination(kind);
      if r.Ok? && r.value.port == 0 {
        PortRefused(s);
        var e := Refuse(GeneralFailure, PortIsZero);
        return Err(e);
      }
      RequestThen(s, r, Unread(), room);
    }

    /** The parser: what it returns, reads and sends depends only on what the client sent. */
    method ReadConnect() returns (r: Result<Destination, SocksError>)
      requires Valid()
      modifies this`position, this`output
      ensures Valid() && output == old(output) + Cut(Answer(old(Unread())), old(Room()))
      ensures Outcome(r, Verdict(old(Unread())), Answer(old(Unread())), old(Unread()), Unread(), old(Room()))
    {
      ghost var s, room := Unread(), Room();
      var selected := SelectMethod();
      if selected.Err? {
        return Err(selected.error);
      }
      r := ReadRequest();
      SelectedThen(s, r, Unread(), room);
    }
  }

  // ----- one accepted connection -----

  datatype ForwardMode = Fixed(host: string, port: nat) | Dynamic

  datatype ForwardingFailure = Prohibited | ConnectFailed | Timeout | SessionUnavailable | ResourceShortage | Other

  /** What the SSH session answers to a request for a channel. */
  datatype ChannelAnswer = Opened | Failed(why: ForwardingFailure)

  function MapSocksFailure(why: ForwardingFailure): SocksReply {
    match why
    case Prohibited => NotAllowed
    case ConnectFailed => ConnectionRefused
    case Timeout => TtlExpired
    case SessionUnavailable => HostUnreachable
    case ResourceShortage | Other => GeneralFailure
  }

  /** The host text handed to the SSH server; a domain name is passed on for the server to resolve. */
  function Target(d: Destination, ipText: seq<Byte> -> string): (string, nat) {
    (if d.Name? then d.host else ipText(d.address), d.port)
  }

  function FinalReply(answer: ChannelAnswer, cancelled: bool): seq<Byte> {
    if cancelled then []
    else if answer.Opened? then ReplyBytes(Succeeded)
    else ReplyBytes(MapSocksFailure(answer.why))
  }

  /** Everything a SOCKS client that sent `s` hears before data flows. */
  function Dialogue(s: seq<Byte>, answer: ChannelAnswer, cancelled: bool): seq<Byte> {
    Answer(s) + if Verdict(s).Ok? then FinalReply(answer, cancelled) else []
  }

  /** Tells a SOCKS client how its request ended; without a success it gets no relay. */
  method Conclude(local: Stream, answer: ChannelAnswer, cancelled: bool) returns (relayed: bool)
    requires local.Valid()
    modifies local`output
    ensures local.Valid() && local.output == old(local.output) + Cut(FinalReply(answer, cancelled), old(local.Room()))
    ensures relayed <==> answer.Opened? && !cancelled && 10 <= old(local.Room())
  {
    if cancelled {
      return false;
    }
    match answer {
      case Failed(why) =>
        var _ := local.Reply(MapSocksFailure(why));
        relayed := false;
      case Opened =>
        relayed := local.Reply(Succeeded);
    }
  }

  /** How a SOCKS connection ends for a client that sent `s`. */
  ghost predicate Served(s: seq<Byte>, answer: ChannelAnswer, cancelled: bool, room: nat,
                         heard: seq<Byte>, unread': seq<Byte>, asked: Option<Destination>, relayed: bool)
  {
    && heard == Cut(Dialogue(s, answer, cancelled), room)
    && asked == (if Verdict(s).Ok? && 2 <= room then Some(Verdict(s).value.0) else None)
    && (relayed <==> Verdict(s).Ok? && answer.Opened? && !cancelled && 12 <= room)
    && (relayed ==> Verdict(s).value.1 <= |s| && unread' == s[Verdict(s).value.1..])
  }

  method HandleSocks(local: Stream, answer: ChannelAnswer, cancelled: bool)
    returns (asked: Option<Destination>, relayed: bool, ghost heard: seq<Byte>)
    requires local.Valid()
    modifies local`position, local`output
    ensures local.Valid() && local.output == old(local.output) + heard
    ensures Served(old(local.Unread()), answer, cancelled, old(local.Room()), heard, local.Unread(), asked, relayed)
  {
    ghost var s, room := local.Unread(), local.Room();
    var parsed := local.ReadConnect();
    ParsedMeans(s, parsed, local.Unread(), room);
    if parsed.Err? {
      RefusedMeans(s, answer, cancelled, room, local.Unread());
      return None, false, Cut(Answer(s), room);
    }
    asked := Some(parsed.value);
    relayed := Conclude(local, answer, cancelled);
    heard := Cut(Answer(s), room) + Cut(FinalReply(answer, cancelled), room - 2);
    Regroup(old(local.output), Cut(Answer(s), room), Cut(FinalReply(answer, cancelled), room - 2));
    ConcludedMeans(s, answer, cancelled, room, local.Unread(), asked, relayed);
  }

  /** The selected method and a reply, byte by byte. */
  function Twelve(code: Byte): seq<Byte> { [5, 0, 5, code, 0, 1, 0, 0, 0, 0, 0, 0] }

  /** The bytes a proper request is answered with. */
  ghost predicate Hears(heard: seq<Byte>, answer: ChannelAnswer) {
    match answer
    case Opened => heard == Twelve(0)
    case Failed(Prohibited) => heard == Twelve(2)
    case Failed(SessionUnavailable) => heard == Twelve(4)
    case Failed(ConnectFailed) => heard == Twelve(5)
    case Failed(Timeout) => heard == Twelve(6)
    case Failed(ResourceShortage) => heard == Twelve(1)
    case Failed(Other) => heard == Twelve(1)
  }

  lemma TwelveBytes(reply: SocksReply)
    ensures [VERSION, NO_AUTH] + ReplyBytes(reply) == Twelve(Code(reply))
  {
  }

  lemma ProperRequestHears(s: seq<Byte>, methods: seq<Byte>, d: Destination, answer: ChannelAnswer)
    requires Asks(s, methods, d)
    ensures Hears(Dialogue(s, answer, false), answer)
  {
    ReplyOf(s, methods, d, answer);
    DialogueShape(s, answer, false);
    ReplyMeans(Dialogue(s, answer, false), ReplyHeard(s, answer, false).value, answer);
  }

  lemma ReplyOf(s: seq<Byte>, methods: seq<Byte>, d: Destination, answer: ChannelAnswer)
    requires Asks(s, methods, d)
    ensures ReplyHeard(s, answer, false) == Some(if answer.Opened? then Succeeded else MapSocksFailure(answer.why))
  {
    Completes(s, methods, d);
  }

  lemma ReplyMeans(heard: seq<Byte>, reply: SocksReply, answer: ChannelAnswer)
    requires heard == [VERSION, NO_AUTH] + ReplyBytes(reply)
    requires reply == if answer.Opened? then Succeeded else MapSocksFailure(answer.why)
    ensures Hears(heard, answer)
  {
    TwelveBytes(reply);
  }

  lemma CancelledHears(s: seq<Byte>, methods: seq<Byte>, d: Destination, answer: ChannelAnswer)
    requires Asks(s, methods, d)
    ensures Dialogue(s, answer, true) == [5, 0]
  {
    Completes(s, methods, d);
    AnswerShape(s);
    assert [VERSION, NO_AUTH] + [] == [5, 0];
  }

  /** What a stream that is no proper request hears, which depends on the first thing wrong with it. */
  lemma ImproperRequestHears(s: seq<Byte>, answer: ChannelAnswer, cancelled: bool)
    requires Verdict(s).Err?
    ensures HearsRefusal(Dialogue(s, answer, cancelled), Verdict(s).error)
  {
    DialogueShape(s, answer, cancelled);
    RefusalMeans(Dialogue(s, answer, cancelled), Verdict(s).error);
  }

  ghost predicate HearsRefusal(heard: seq<Byte>, e: SocksError) {
    match e
    case InvalidGreeting => NoReply(heard)
    case NoAcceptedMethod => NoReply(heard)
    case InvalidHeader => heard == Twelve(1)
    case PortIsZero => heard == Twelve(1)
    case OnlyConnect => heard == Twelve(7)
    case UnsupportedAddressType => heard == Twelve(8)
    case EmptyDomain => heard == Twelve(8)
    case DomainNotUtf8 => heard == Twelve(8)
    case Io => NoReply(heard)
  }

  lemma RefusalMeans(heard: seq<Byte>, e: SocksError)
    requires if ReplyTo(e).Some? then heard == [VERSION, NO_AUTH] + ReplyBytes(ReplyTo(e).value) else NoReply(heard)
    ensures HearsRefusal(heard, e)
  {
    if ReplyTo(e).Some? {
      TwelveBytes(ReplyTo(e).value);
    }
  }

  /** A client none of whose methods is accepted hears just that; one whose greeting is malformed hears nothing. */
  lemma SelectionHears(s: seq<Byte>, answer: ChannelAnswer, cancelled: bool)
    requires MethodsVerdict(s).Err?
    ensures Dialogue(s, answer, cancelled) == if MethodsVerdict(s).error == NoAcceptedMethod then [5, 255] else []
  {
  }

  /** How a client is served that asked for `d`: where it is connected, what it hears, and which bytes are relayed. */
  ghost predicate ServedAsAsked(s: seq<Byte>, methods: seq<Byte>, d: Destination, ipText: seq<Byte> -> string,
                                answer: ChannelAnswer, cancelled: bool, room: nat, requested: Option<(string, nat)>,
                                heard: seq<Byte>, unread': seq<Byte>, relayed: bool)
    requires Asks(s, methods, d)
  {
    && (2 <= room ==>
          match d
          case Name(host, port) => requested == Some((host, port))
          case Ipv4(address, port) => requested == Some((ipText(address), port))
          case Ipv6(address, port) => requested == Some((ipText(address), port)))
    && (12 <= room ==> if cancelled then heard == [5, 0] else Hears(heard, answer))
    && (relayed <==> answer.Opened? && !cancelled && 12 <= room)
    && (relayed ==> Greeting(methods) + Request(d) + unread' == s)
  }

  lemma AskedIsServed(s: seq<Byte>, methods: seq<Byte>, d: Destination, ipText: seq<Byte> -> string,
                      answer: ChannelAnswer, cancelled: bool, room: nat, asked: Option<Destination>, heard: seq<Byte>,
                      unread': seq<Byte>, relayed: bool)
    requires Asks(s, methods, d)
    requires Served(s, answer, cancelled, room, heard, unread', asked, relayed)
    ensures ServedAsAsked(s, methods, d, ipText, answer, cancelled, room,
                          if asked.Some? then Some(Target(asked.value, ipText)) else None, heard, unread', relayed)
  {
    Completes(s, methods, d);
    ProperRequestHears(s, methods, d, answer);
    CancelledHears(s, methods, d, answer);
    var used := Greeting(methods) + Request(d);
    assert s == s[..|used|] + s[|used|..];
  }

  /** A client that comes while there is no session: a proper request is answered HostUnreachable, no relay follows. */
  method RejectUnhealthy(local: Stream) returns (ghost heard: seq<Byte>)
    requires local.Valid()
    modifies local`position, local`output
    ensures local.Valid() && local.output == old(local.output) + heard
    ensures heard == Cut(Dialogue(old(local.Unread()), Failed(SessionUnavailable), false), old(local.Room()))
    ensures (exists methods, d :: Asks(old(local.Unread()), methods, d)) && 12 <= old(local.Room()) ==>
      heard == [5, 0, 5, 4, 0, 1, 0, 0, 0, 0, 0, 0]
  {
    ghost var s := local.Unread();
    var asked, relayed;
    asked, relayed, heard := HandleSocks(local, Failed(SessionUnavailable), false);
    forall methods, d | Asks(s, methods, d) ensures Hears(Dialogue(s, Failed(SessionUnavailable), false),
                                                          Failed(SessionUnavailable)) {
      ProperRequestHears(s, methods, d, Failed(SessionUnavailable));
    }
  }

  lemma Regroup(a: seq<Byte>, b: seq<Byte>, c: seq<Byte>)
    ensures (a + b) + c == a + (b + c)
  {
  }

  lemma ParsedMeans(s: seq<Byte>, r: Result<Destination, SocksError>, unread': seq<Byte>, room: nat)
    requires Outcome(r, Verdict(s), Answer(s), s, unread', room)
    ensures r.Ok? <==> Verdict(s).Ok? && 2 <= room
    ensures r.Ok? ==> r.value == Verdict(s).value.0 && Verdict(s).value.1 <= |s| && unread' == s[Verdict(s).value.1..]
    ensures r.Ok? ==> |Cut(Answer(s), room)| == 2
  {
  }

  lemma RefusedMeans(s: seq<Byte>, answer: ChannelAnswer, cancelled: bool, room: nat, unread': seq<Byte>)
    requires Verdict(s).Err? || room < 2
    ensures Served(s, answer, cancelled, room, Cut(Answer(s), room), unread', None, false)
  {
    if Verdict(s).Ok? {
      assert Answer(s) == [VERSION, NO_AUTH];
    }
  }

  lemma ConcludedMeans(s: seq<Byte>, answer: ChannelAnswer, cancelled: bool, room: nat, unread': seq<Byte>,
                       asked: Option<Destination>, relayed: bool)
    requires Verdict(s).Ok? && 2 <= room && asked == Some(Verdict(s).value.0)
    requires relayed <==> answer.Opened? && !cancelled && 10 <= room - 2
    requires Verdict(s).value.1 <= |s| && unread' == s[Verdict(s).value.1..]
    ensures Served(s, answer, cancelled, room, Cut(Answer(s), room) + Cut(FinalReply(answer, cancelled), room - 2),
                   unread', asked, relayed)
  {
    assert Answer(s) == [VERSION, NO_AUTH];
    CutConcat(Answer(s), FinalReply(answer, cancelled), room);
  }

  method HandleConnection(local: Stream, mode: ForwardMode, ipText: seq<Byte> -> string, answer: ChannelAnswer,
                          cancelled: bool)
    returns (requested: Option<(string, nat)>, relayed: bool, ghost heard: seq<Byte>)
    requires local.Valid()
    modifies local`position, local`output
    ensures local.Valid() && local.output == old(local.output) + heard
    ensures mode.Fixed? ==>
      && heard == [] && local.position == old(local.position)
      && requested == Some((mode.host, mode.port)) && relayed == answer.Opened?
    ensures mode.Dynamic? ==> exists asked: Option<Destination> ::
      && Served(old(local.Unread()), answer, cancelled, old(local.Room()), heard, local.Unread(), asked, relayed)
      && requested == if asked.Some? then Some(Target(asked.value, ipText)) else None
    // which amounts to this for every proper request
    ensures mode.Dynamic? ==> forall methods, d | Asks(old(local.Unread()), methods, d) ::
      ServedAsAsked(old(local.Unread()), methods, d, ipText, answer, cancelled, old(local.Room()), requested, heard,
                    local.Unread(), relayed)
  {
    ghost var s, room := local.Unread(), local.Room();
    if mode.Fixed? {
      return Some((mode.host, mode.port)), answer.Opened?, [];
    }
    var asked: Option<Destination>;
    asked, relayed, heard := HandleSocks(local, answer, cancelled);
    requested := if asked.Some? then Some(Target(asked.value, ipText)) else None;
    forall methods, d | Asks(s, methods, d)
      ensures ServedAsAsked(s, methods, d, ipText, answer, cancelled, room, requested, heard, local.Unread(), relayed)
    {
      AskedIsServed(s, methods, d, ipText, answer, cancelled, room, asked, heard, local.Unread(), relayed);
    }
  }

  /** The reply a client hears, if any. */
  function ReplyHeard(s: seq<Byte>, answer: ChannelAnswer, cancelled: bool): Option<SocksReply> {
    match Verdict(s)
    case Err(e) => ReplyTo(e)
    case Ok(_) => if cancelled then None else Some(if answer.Opened? then Succeeded else MapSocksFailure(answer.why))
  }

  /** Nothing beyond the selected method. */
  predicate NoReply(heard: seq<Byte>) {
    heard == [] || heard == [VERSION, NO_METHOD] || heard == [VERSION, NO_AUTH]
  }

  lemma AnswerShape(s: seq<Byte>)
    ensures match Verdict(s)
            case Ok(_) => Answer(s) == [VERSION, NO_AUTH]
            case Err(e) =>
              if ReplyTo(e).Some? then Answer(s) == [VERSION, NO_AUTH] + ReplyBytes(ReplyTo(e).value)
              else NoReply(Answer(s))
  {
    var v := MethodsVerdict(s);
    if v.Ok? {
      assert Selection(s) == [VERSION, NO_AUTH];
      if Refusal(s[v.value..]) == [] {
        assert Answer(s) == [VERSION, NO_AUTH];
      }
    } else {
      assert Answer(s) == Selection(s);
    }
  }

  lemma DialogueShape(s: seq<Byte>, answer: ChannelAnswer, cancelled: bool)
    ensures var heard, reply := Dialogue(s, answer, cancelled), ReplyHeard(s, answer, cancelled);
            if reply.Some? then heard == [VERSION, NO_AUTH] + ReplyBytes(reply.value) else NoReply(heard)
  {
    AnswerShape(s);
    assert Answer(s) + [] == Answer(s);
  }

  /** At most one reply, always ten bytes after the selected method, and Succeeded only for an open channel. */
  lemma AtMostOneReply(s: seq<Byte>, answer: ChannelAnswer, cancelled: bool)
    ensures var heard := Dialogue(s, answer, cancelled);
            || NoReply(heard)
            || exists code ::
                 && heard == [VERSION, NO_AUTH] + ReplyBytes(code)
                 && (code.Succeeded? ==> answer.Opened? && Verdict(s).Ok?)
                 && (Verdict(s).Ok? && !code.Succeeded? ==> answer.Failed?)
  {
    DialogueShape(s, answer, cancelled);
    if ReplyHeard(s, answer, cancelled).Some? {
      assert Dialogue(s, answer, cancelled) == [VERSION, NO_AUTH] + ReplyBytes(ReplyHeard(s, answer, cancelled).value);
    }
  }

  lemma AcceptedExactlyWhenAsked(s: seq<Byte>)
    ensures Verdict(s).Ok? <==> exists methods, d :: Asks(s, methods, d)
  {
    if Verdict(s).Ok? {
      var methods := Accepted(s);
      assert Asks(s, methods, Verdict(s).value.0);
    } else {
      forall methods, d ensures !Asks(s, methods, d) {
        if Asks(s, methods, d) {
          Completes(s, methods, d);
        }
      }
    }
  }

  /** From the bytes heard alone, the client knows that its channel is open: no refusal looks like Succeeded. */
  lemma SucceededMeansOpened(s: seq<Byte>, answer: ChannelAnswer, cancelled: bool)
    ensures [VERSION, NO_AUTH, VERSION, Code(Succeeded)] <= Dialogue(s, answer, cancelled) <==>
      (exists methods, d :: Asks(s, methods, d)) && answer.Opened? && !cancelled
  {
    AcceptedExactlyWhenAsked(s);
    DialogueShape(s, answer, cancelled);
    var reply := ReplyHeard(s, answer, cancelled);
    SucceededHeard(s, answer, cancelled);
    SuccessBytes(Dialogue(s, answer, cancelled), reply);
  }

  lemma SucceededHeard(s: seq<Byte>, answer: ChannelAnswer, cancelled: bool)
    ensures ReplyHeard(s, answer, cancelled) == Some(Succeeded) <==> Verdict(s).Ok? && answer.Opened? && !cancelled
  {
  }

  lemma SuccessBytes(heard: seq<Byte>, reply: Option<SocksReply>)
    requires if reply.Some? then heard == [VERSION, NO_AUTH] + ReplyBytes(reply.value) else NoReply(heard)
    ensures [VERSION, NO_AUTH, VERSION, Code(Succeeded)] <= heard <==> reply == Some(Succeeded)
  {
    if reply.Some? {
      assert heard[..4] == [VERSION, NO_AUTH, VERSION, Code(reply.value)];
      assert [VERSION, NO_AUTH, VERSION, Code(Succeeded)] <= heard ==> heard[3] == Code(Succeeded);
    }
  }
}
