/** Configuration values: tunnels, hosts, groups and reconnect policies. */
module Domain {
  import opened Wrappers

  // durations are whole nanoseconds; Rust's Duration holds up to 2^64 seconds of them
  const NANOS_PER_MILLI: nat := 1_000_000
  const DURATION_LIMIT: nat := 0x1_0000_0000_0000_0000 * 1_000_000_000

  // a path is the list of its components; an absolute one starts with "/"
  type Path = seq<string>

  datatype TunnelMode = Local | Remote | Dynamic

  datatype Endpoint = Endpoint(host: string, port: nat)

  datatype RetryPolicy = RetryPolicy(
    baseDelay: nat, maxDelay: nat, resetAfterHealthy: nat, jitterPercent: nat)

  datatype TunnelConfig = TunnelConfig(
    id: string,
    name: string,
    groupId: Option<string>,
    mode: TunnelMode,
    jumpChain: seq<string>,
    local: Endpoint,
    remote: Option<Endpoint>,
    autoStart: bool,
    reconnect: RetryPolicy,
    description: string)

  datatype AuthConfig =
    | Password(credentialRef: string)
    | PrivateKey(keyPath: Path, passphraseRef: Option<string>)
    | Agent(socket: Option<string>)
    | KeyboardInteractive

  datatype HostKeyPolicy = Strict | Bypass

  datatype SshHost = SshHost(
    id: string,
    name: string,
    hostname: string,
    port: nat,
    username: string,
    auth: AuthConfig,
    hostKeyPolicy: HostKeyPolicy,
    connectTimeout: nat,
    keepaliveInterval: nat,
    keepaliveMax: nat,
    notes: string)

  datatype TunnelGroup = TunnelGroup(id: string, name: string, sortOrder: nat)

  /** The first host with this id, as `iter().find` returns it. */
  function FindHost(hosts: seq<SshHost>, id: string): Option<SshHost> {
    if |hosts| == 0 then None
    else if hosts[0].id == id then Some(hosts[0])
    else FindHost(hosts[1..], id)
  }

  /** What connecting to a host depends on. */
  datatype HostConnection = HostConnection(
    hostname: string, port: nat, username: string, auth: AuthConfig, hostKeyPolicy: HostKeyPolicy,
    connectTimeout: nat, keepaliveInterval: nat, keepaliveMax: nat)

  function ConnectionOf(h: SshHost): HostConnection {
    HostConnection(h.hostname, h.port, h.username, h.auth, h.hostKeyPolicy, h.connectTimeout, h.keepaliveInterval,
                   h.keepaliveMax)
  }

  /** Everything a running tunnel task depends on. */
  datatype ConnectionPlan = ConnectionPlan(
    mode: TunnelMode, local: Endpoint, remote: Option<Endpoint>, reconnect: RetryPolicy,
    chain: seq<string>, hops: seq<Option<HostConnection>>)

  function Hop(id: string, hosts: seq<SshHost>): Option<HostConnection> {
    var found := FindHost(hosts, id);
    if found.None? then None else Some(ConnectionOf(found.value))
  }

  function Hops(chain: seq<string>, hosts: seq<SshHost>): seq<Option<HostConnection>> {
    seq(|chain|, i requires 0 <= i < |chain| => Hop(chain[i], hosts))
  }

  /** The plan the configuration calls for. */
  function PlanOf(t: TunnelConfig, hosts: seq<SshHost>): ConnectionPlan {
    ConnectionPlan(t.mode, t.local, t.remote, t.reconnect, t.jumpChain, Hops(t.jumpChain, hosts))
  }

  /** Unicode White_Space, which `trim` removes. */
  predicate IsWhitespace(c: char) {
    || '\t' <= c <= '\r' || c == ' ' || c == '\U{85}' || c == '\U{A0}' || c == '\U{1680}'
    || '\U{2000}' <= c <= '\U{200A}' || c == '\U{2028}' || c == '\U{2029}' || c == '\U{202F}'
    || c == '\U{205F}' || c == '\U{3000}'
  }

  predicate Blank(s: string) {
    forall i | 0 <= i < |s| :: IsWhitespace(s[i])
  }

  /** Length in bytes of the UTF-8 form, which is what `str::len` counts. */
  function ByteLength(s: string): nat {
    if |s| == 0 then 0
    else
      var c := s[|s| - 1];
      ByteLength(s[..|s| - 1])
      + if c < '\U{80}' then 1 else if c < '\U{800}' then 2 else if c < '\U{10000}' then 3 else 4
  }
}
