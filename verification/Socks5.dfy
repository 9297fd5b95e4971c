/**
  The SOCKS5 front end (RFC 1928 sections 3 to 6, NO AUTH and CONNECT only) and the connection handler that
  answers its clients.

  `Greeting` and `Request` write the protocol down; `Verdict` decides on a byte stream; the parser reads
  and writes an actual stream.
*/
module Socks5 {
  import opened Wrappers
  import opened Utf8

  const VERSION: Byte := 5
  const CONNECT: Byte := 1
  const NO_AUTH: Byte := 0
  const NO_METHOD: Byte := 0xFF

  datatype Destination =
    | Ipv4(address: seq<Byte>, port: nat)
    | Ipv6(address: seq<Byte>, port: nat)
    | Name(host: string, port: nat)

  datatype SocksReply =
    | Succeeded
    | GeneralFailure
    | NotAllowed
    | HostUnreachable
    | ConnectionRefused
    | TtlExpired
    | CommandNotSupported
    | AddressTypeNotSupported

  datatype SocksError =
    | Io
    | InvalidGreeting
    | NoAcceptedMethod
    | InvalidHeader
    | OnlyConnect
    | UnsupportedAddressType
    | EmptyDomain
    | DomainNotUtf8
    | PortIsZero

  // ----- the protocol -----

  function PortBytes(port: nat): seq<Byte>
    requires port < 0x10000
  {
    [port / 0x100, port % 0x100]
  }

  /** A destination a client can ask for. */
  ghost predicate Askable(d: Destination) {
    && 0 < d.port < 0x10000
    && match d
       case Ipv4(address, _) => |address| == 4
       case Ipv6(address, _) => |address| == 16
       case Name(host, _) => 1 <= |Encode(host)| <= 255
  }

  ghost function Greeting(methods: seq<Byte>): seq<Byte>
    requires |methods| <= 255
  {
    [VERSION, |methods|] + methods
  }

  function AddressType(d: Destination): Byte {
    match d
    case Ipv4(_, _) => 1
    case Name(_, _) => 3
    case Ipv6(_, _) => 4
  }

  ghost function Address(d: Destination): seq<Byte>
    requires Askable(d)
  {
    match d
    case Ipv4(address, _) => address
    case Ipv6(address, _) => address
    case Name(host, _) => [|Encode(host)|] + Encode(host)
  }

  ghost function Request(d: Destination): seq<Byte>
    requires Askable(d)
  {
    [VERSION, CONNECT, 0, AddressType(d)] + Address(d) + PortBytes(d.port)
  }

  /** `s` begins with a client asking for `d` after offering `methods`. */
  ghost predicate Asks(s: seq<Byte>, methods: seq<Byte>, d: Destination) {
    && 1 <= |methods| <= 255 && NO_AUTH in methods
    && Askable(d)
    && Greeting(methods) + Request(d) <= s
  }

  function Code(reply: SocksReply): Byte {
    match reply
    case Succeeded => 0
    case GeneralFailure => 1
    case NotAllowed => 2
    case HostUnreachable => 4
    case ConnectionRefused => 5
    case TtlExpired => 6
    case CommandNotSupported => 7
    case AddressTypeNotSupported => 8
  }

  function ReplyBytes(reply: SocksReply): (b: seq<Byte>)
    ensures |b| == 10
  {
    [VERSION, Code(reply), 0, 1, 0, 0, 0, 0, 0, 0]
  }

  // ----- what the parser decides -----

  function At(s: seq<Byte>, i: nat): nat
    requires i < |s|
  {
    s[i]
  }

  /** The methods a client offers. */
  function GreetingVerdict(s: seq<Byte>): (v: Result<seq<Byte>, SocksError>)
    ensures v.Ok? ==> 0 < |v.value| && 2 + |v.value| <= |s|
  {
    if |s| < 2 then Err(Io)
    else if s[0] != VERSION || s[1] == 0 then Err(InvalidGreeting)
    else if |s| < 2 + At(s, 1) then Err(Io)
    else Ok(s[2..2 + At(s, 1)])
  }

  /** The number of bytes of an acceptable greeting. */
  function MethodsVerdict(s: seq<Byte>): (v: Result<nat, SocksError>)
    ensures v.Ok? ==> 2 < v.value <= |s|
  {
    match GreetingVerdict(s)
    case Err(e) => Err(e)
    case Ok(methods) => if NO_AUTH !in methods then Err(NoAcceptedMethod) else Ok(2 + |methods|)
  }

  function PortAt(s: seq<Byte>, at: nat): nat
    requires at + 2 <= |s|
  {
    At(s, at) * 0x100 + At(s, at + 1)
  }

  /** The address and port that follow an address type, and how many bytes they took. */
  function DestinationVerdict(kind: Byte, s: seq<Byte>): (v: Result<(Destination, nat), SocksError>)
    ensures v.Ok? ==> 3 < v.value.1 <= |s|
  {
    match kind
    case 1 => if |s| < 6 then Err(Io) else Ok((Ipv4(s[..4], PortAt(s, 4)), 6))
    case 3 => NameVerdict(s)
    case 4 => if |s| < 18 then Err(Io) else Ok((Ipv6(s[..16], PortAt(s, 16)), 18))
    case _ => Err(UnsupportedAddressType)
  }

  function HostVerdict(s: seq<Byte>): (v: Result<(string, nat), SocksError>)
    ensures v.Ok? ==> 1 < v.value.1 <= |s|
  {
    if |s| < 1 then Err(Io)
    else if s[0] == 0 then Err(EmptyDomain)
    else if |s| < 1 + At(s, 0) then Err(Io)
    else
      var host := Decode(s[1..1 + At(s, 0)]);
      if host.None? then Err(DomainNotUtf8) else Ok((host.value, 1 + At(s, 0)))
  }

  function NameVerdict(s: seq<Byte>): (v: Result<(Destination, nat), SocksError>)
    ensures v.Ok? ==> 3 < v.value.1 <= |s|
  {
    match HostVerdict(s)
    case Err(e) => Err(e)
    case Ok((host, n)) => if |s| < n + 2 then Err(Io) else Ok((Name(host, PortAt(s, n)), n + 2))
  }

  /** The address type of a CONNECT request. */
  function HeaderVerdict(s: seq<Byte>): (v: Result<Byte, SocksError>)
    ensures v.Ok? ==> |s| >= 4
  {
    if |s| < 4 then Err(Io)
    else if s[0] != VERSION || s[2] != 0 then Err(InvalidHeader)
    else if s[1] != CONNECT then Err(OnlyConnect)
    else Ok(s[3])
  }

  function RequestVerdict(s: seq<Byte>): (v: Result<(Destination, nat), SocksError>)
    ensures v.Ok? ==> 7 < v.value.1 <= |s|
  {
    match HeaderVerdict(s)
    case Err(e) => Err(e)
    case Ok(kind) =>
      match DestinationVerdict(kind, s[4..])
      case Err(e) => Err(e)
      case Ok((d, used)) => if d.port == 0 then Err(PortIsZero) else Ok((d, 4 + used))
  }

  function Verdict(s: seq<Byte>): Result<(Destination, nat), SocksError> {
    match MethodsVerdict(s)
    case Err(e) => Err(e)
    case Ok(n) =>
      match RequestVerdict(s[n..])
      case Err(e) => Err(e)
      case Ok((d, used)) => Ok((d, n + used))
  }

  function ReplyTo(e: SocksError): Option<SocksReply> {
    match e
    case InvalidHeader | PortIsZero => Some(GeneralFailure)
    case OnlyConnect => Some(CommandNotSupported)
    case EmptyDomain | DomainNotUtf8 | UnsupportedAddressType => Some(AddressTypeNotSupported)
    case _ => None
  }

  function ReplyPart(e: SocksError): seq<Byte> {
    if ReplyTo(e).Some? then ReplyBytes(ReplyTo(e).value) else []
  }

  function Selection(s: seq<Byte>): seq<Byte> {
    match MethodsVerdict(s)
    case Ok(_) => [VERSION, NO_AUTH]
    case Err(NoAcceptedMethod) => [VERSION, NO_METHOD]
    case Err(_) => []
  }

  /** The reply to a rejected request. */
  function Complaint<T>(verdict: Result<T, SocksError>): seq<Byte> {
    if verdict.Err? then ReplyPart(verdict.error) else []
  }

  function Refusal(r: seq<Byte>): seq<Byte> { Complaint(RequestVerdict(r)) }

  /** Everything the parser sends to a client that sent `s`. */
  function Answer(s: seq<Byte>): seq<Byte> {
    match MethodsVerdict(s)
    case Ok(n) => Selection(s) + Refusal(s[n..])
    case Err(_) => Selection(s)
  }

  // ----- soundness and completeness -----

  lemma PortReadBack(s: seq<Byte>, at: nat)
    requires at + 2 <= |s|
    ensures PortAt(s, at) < 0x10000 && s[at..at + 2] == PortBytes(PortAt(s, at))
  {
  }

  lemma Glue(s: seq<Byte>, i: nat, j: nat)
    requires i <= j <= |s|
    ensures s[..j] == s[..i] + s[i..j]
  {
  }

  lemma AddressSound(kind: Byte, s: seq<Byte>)
    requires DestinationVerdict(kind, s).Ok?
    ensures var (d, used) := DestinationVerdict(kind, s).value;
            && AddressType(d) == kind && d.port == PortAt(s, used - 2)
            && (d.port != 0 ==> Askable(d) && s[..used - 2] == Address(d))
  {
    var (d, used) := DestinationVerdict(kind, s).value;
    PortReadBack(s, used - 2);
    if d.Name? {
      DecodeExact(s[1..used - 2], d.host);
      assert s[..used - 2] == [s[0]] + s[1..used - 2];
    }
  }

  lemma DestinationSound(kind: Byte, s: seq<Byte>)
    requires DestinationVerdict(kind, s).Ok? && DestinationVerdict(kind, s).value.0.port != 0
    ensures var (d, used) := DestinationVerdict(kind, s).value;
            Askable(d) && AddressType(d) == kind && s[..used] == Address(d) + PortBytes(d.port)
  {
    var used := DestinationVerdict(kind, s).value.1;
    AddressSound(kind, s);
    PortReadBack(s, used - 2);
    Glue(s, used - 2, used);
  }

  lemma DestinationComplete(s: seq<Byte>, d: Destination)
    requires Askable(d) && Address(d) + PortBytes(d.port) <= s
    ensures DestinationVerdict(AddressType(d), s) == Ok((d, |Address(d)| + 2))
  {
    var a, all := Address(d), Address(d) + PortBytes(d.port);
    var n := |a|;
    assert s[..n] == all[..n] == a;
    assert s[n..n + 2] == all[n..n + 2] == PortBytes(d.port);
    assert PortAt(s, n) == d.port by {
      assert s[n] == s[n..n + 2][0] && s[n + 1] == s[n..n + 2][1];
    }
    if d.Name? {
      assert At(s, 0) == s[..n][0] == |Encode(d.host)|;
      assert s[1..n] == s[..n][1..] == Encode(d.host);
      DecodeExact(s[1..n], d.host);
    }
  }

  lemma RequestSound(s: seq<Byte>)
    requires RequestVerdict(s).Ok?
    ensures var (d, used) := RequestVerdict(s).value; Askable(d) && s[..used] == Request(d)
  {
    var (d, used) := RequestVerdict(s).value;
    DestinationSound(s[3], s[4..]);
    assert s[..4] == [VERSION, CONNECT, 0, AddressType(d)];
    Glue(s, 4, used);
    assert s[4..used] == s[4..][..used - 4];
  }

  lemma RequestComplete(s: seq<Byte>, d: Destination)
    requires Askable(d) && Request(d) <= s
    ensures RequestVerdict(s) == Ok((d, |Request(d)|))
  {
    var r, body := Request(d), Address(d) + PortBytes(d.port);
    assert r == [VERSION, CONNECT, 0, AddressType(d)] + body;
    assert s[..4] == r[..4];
    assert s[0] == s[..4][0] && s[1] == s[..4][1] && s[2] == s[..4][2] && s[3] == s[..4][3];
    assert s[4..][..|body|] == r[4..] == body;
    DestinationComplete(s[4..], d);
  }

  lemma GreetingComplete(s: seq<Byte>, methods: seq<Byte>)
    requires 1 <= |methods| <= 255 && NO_AUTH in methods && Greeting(methods) <= s
    ensures MethodsVerdict(s) == Ok(|Greeting(methods)|) && s[2..2 + |methods|] == methods
  {
    var g := Greeting(methods);
    assert s[..|g|] == g;
    assert s[0] == g[0] && s[1] == g[1];
    assert s[2..|g|] == g[2..] == methods;
  }

  lemma Behind(a: seq<Byte>, b: seq<Byte>, s: seq<Byte>)
    requires a + b <= s
    ensures a <= s && b <= s[|a|..]
  {
    assert s[|a|..][..|b|] == (a + b)[|a|..] == b;
    assert s[..|a|] == (a + b)[..|a|] == a;
  }

  lemma Completes(s: seq<Byte>, methods: seq<Byte>, d: Destination)
    requires Asks(s, methods, d)
    ensures Verdict(s) == Ok((d, |Greeting(methods) + Request(d)|))
    ensures MethodsVerdict(s) == Ok(|Greeting(methods)|) && s[2..2 + |methods|] == methods
  {
    var g := Greeting(methods);
    Behind(g, Request(d), s);
    GreetingComplete(s, methods);
    RequestComplete(s[|g|..], d);
  }

  lemma InFront(a: seq<Byte>, b: seq<Byte>, s: seq<Byte>)
    requires |a| + |b| <= |s| && s[..|a|] == a && s[|a|..][..|b|] == b
    ensures a + b <= s
  {
  }

  lemma Accepted(s: seq<Byte>) returns (methods: seq<Byte>)
    requires Verdict(s).Ok?
    ensures var (d, used) := Verdict(s).value; Asks(s, methods, d) && used == |Greeting(methods) + Request(d)|
  {
    var n := MethodsVerdict(s).value;
    methods := s[2..n];
    RequestSound(s[n..]);
    assert s[..n] == Greeting(methods);
    InFront(Greeting(methods), Request(Verdict(s).value.0), s);
  }

  /** The parser accepts exactly the streams that begin with a well-formed NO AUTH CONNECT, and uses up just that. */
  lemma AcceptsExactly(s: seq<Byte>, d: Destination, used: nat)
    ensures Verdict(s) == Ok((d, used)) <==>
      exists methods :: Asks(s, methods, d) && used == |Greeting(methods) + Request(d)|
  {
    if Verdict(s) == Ok((d, used)) {
      var methods := Accepted(s);
    }
    forall methods | Asks(s, methods, d) ensures Verdict(s) == Ok((d, |Greeting(methods) + Request(d)|)) {
      Completes(s, methods, d);
    }
  }

  /** No stream can be read as two different requests, however it continues. */
  lemma RequestsAreUnambiguous(s: seq<Byte>, m1: seq<Byte>, d1: Destination, m2: seq<Byte>, d2: Destination)
    requires Asks(s, m1, d1) && Asks(s, m2, d2)
    ensures m1 == m2 && d1 == d2
  {
    Completes(s, m1, d1);
    Completes(s, m2, d2);
  }

  /** What is wrong with a request. */
  ghost predicate Fault(r: seq<Byte>, e: SocksError) {
    && |r| >= 4
    && match e
       case InvalidHeader => r[0] != VERSION || r[2] != 0
       case OnlyConnect => r[0] == VERSION && r[1] != CONNECT
       case UnsupportedAddressType => r[..3] == [VERSION, CONNECT, 0] && r[3] !in {1, 3, 4}
       case EmptyDomain => |r| >= 5 && r[..5] == [VERSION, CONNECT, 0, 3, 0]
       case DomainNotUtf8 => |r| >= 5 && |r| >= 5 + At(r, 4) && forall t :: Encode(t) != r[5..5 + At(r, 4)]
       case PortIsZero => exists at :: 5 < at <= |r| - 2 && PortAt(r, at) == 0
       case _ => false
  }

  /** Every complaint about a request is true of its bytes; a stream that merely ends early is no fault. */
  lemma FaultsAreTrue(r: seq<Byte>)
    requires RequestVerdict(r).Err? && RequestVerdict(r).error != Io
    ensures Fault(r, RequestVerdict(r).error)
  {
    var e := RequestVerdict(r).error;
    if e == DomainNotUtf8 {
      assert At(r[4..], 0) == At(r, 4) && r[5..5 + At(r, 4)] == r[4..][1..1 + At(r, 4)];
      forall t ensures Encode(t) != r[5..5 + At(r, 4)] {
        DecodeExact(r[5..5 + At(r, 4)], t);
      }
    } else if e == PortIsZero {
      var at := 2 + DestinationVerdict(r[3], r[4..]).value.1;
      assert PortAt(r, at) == PortAt(r[4..], at - 4) == 0;
    }
  }
}
