/**
  The configuration document: reading it into the domain and writing the domain back.

  `DomainOf` and `DocumentOf` say what the two conversions compute; the loops that convert a document are
  checked against the former.
*/
module Schema {
  import opened Wrappers
  import opened Domain
  import opened Validation

  const SCHEMA_VERSION: nat := 1
  const MAX_HOSTS: nat := 512
  const MAX_GROUPS: nat := 128
  const MAX_TUNNELS: nat := 1024
  const MAX_JUMP_HOPS: nat := 16
  const TILDE: string := "~"

  type U64 = n: int | 0 <= n < 0x1_0000_0000_0000_0000

  datatype ThemePreference = System | Light | Dark

  datatype AppSettings = AppSettings(
    theme: ThemePreference, runAtStartup: bool, minimizeToTray: bool, trafficMonitor: bool)

  datatype AuthType = ByPassword | ByPrivateKey | ByAgent | ByKeyboard

  datatype HostRecord = HostRecord(
    id: string,
    name: string,
    hostname: string,
    port: nat,
    username: string,
    authType: AuthType,
    credentialRef: Option<string>,
    identityFile: Option<Path>,
    passphraseRef: Option<string>,
    agentSocket: Option<string>,
    hostKeyPolicy: HostKeyPolicy,
    connectTimeoutMs: U64,
    keepaliveIntervalMs: U64,
    keepaliveMax: nat,
    notes: string)

  datatype GroupRecord = GroupRecord(id: string, name: string, sortOrder: nat)

  datatype TunnelRecord = TunnelRecord(
    id: string,
    name: string,
    groupId: Option<string>,
    mode: TunnelMode,
    jumpChain: seq<string>,
    localHost: string,
    localPort: nat,
    remoteHost: Option<string>,
    remotePort: Option<nat>,
    autoStart: bool,
    reconnectBaseMs: U64,
    reconnectMaxMs: U64,
    reconnectResetMs: U64,
    reconnectJitterPercent: nat,
    description: string)

  datatype ConfigDocument = ConfigDocument(
    schemaVersion: nat, app: AppSettings, hosts: seq<HostRecord>, groups: seq<GroupRecord>, tunnels: seq<TunnelRecord>)

  datatype DomainConfig = DomainConfig(
    app: AppSettings, hosts: seq<SshHost>, groups: seq<TunnelGroup>, tunnels: seq<TunnelConfig>)

  datatype Kind = HostEntry | GroupEntry | TunnelEntry

  datatype HostFault = RequiredFieldMissing | CredentialRefMissing | IdentityFileMissing | HomeUnavailable

  datatype TunnelFault = JumpChainTooLong | RemoteHalfSet | Rejected(reason: ValidationError)

  datatype ConfigError =
    | UnsupportedVersion(version: nat)
    | TooManyEntries(kind: Kind)
    | DuplicateId(kind: Kind, id: string)
    | BadHost(id: string, hostFault: HostFault)
    | BadTunnel(id: string, tunnelFault: TunnelFault)
    | DurationTooLarge

  /** The machine's side: its home directory and its notion of an IP address. */
  datatype Machine = Machine(home: Option<Path>, isIp: string -> bool)

  // ----- one record -----

  function ExpandHome(path: Path, home: Option<Path>): Option<Path> {
    if path == [] || path[0] != TILDE then Some(path)
    else if home.None? then None
    else Some(home.value + path[1..])
  }

  function FromMillis(ms: U64): nat { ms * NANOS_PER_MILLI }

  function Milliseconds(duration: nat): Result<U64, ConfigError> {
    var ms := duration / NANOS_PER_MILLI;
    if ms < 0x1_0000_0000_0000_0000 then Ok(ms) else Err(DurationTooLarge)
  }

  function AuthOf(r: HostRecord, home: Option<Path>): Result<AuthConfig, HostFault> {
    match r.authType
    case ByPassword =>
      if r.credentialRef.None? || r.credentialRef.value == "" then Err(CredentialRefMissing)
      else Ok(Password(r.credentialRef.value))
    case ByPrivateKey =>
      if r.identityFile.None? then Err(IdentityFileMissing)
      else
        var path := ExpandHome(r.identityFile.value, home);
        if path.None? then Err(HomeUnavailable) else Ok(PrivateKey(path.value, r.passphraseRef))
    case ByAgent => Ok(Agent(r.agentSocket))
    case ByKeyboard => Ok(KeyboardInteractive)
  }

  function HostOf(r: HostRecord, home: Option<Path>): Result<SshHost, ConfigError> {
    if Blank(r.id) || Blank(r.name) || Blank(r.hostname) || Blank(r.username) || r.port == 0
       || r.connectTimeoutMs == 0 || r.keepaliveMax == 0 then
      Err(BadHost(r.id, RequiredFieldMissing))
    else
      match AuthOf(r, home)
      case Err(fault) => Err(BadHost(r.id, fault))
      case Ok(auth) =>
        Ok(SshHost(r.id, r.name, r.hostname, r.port, r.username, auth, r.hostKeyPolicy, FromMillis(r.connectTimeoutMs),
                   FromMillis(r.keepaliveIntervalMs), r.keepaliveMax, r.notes))
  }

  function GroupOf(r: GroupRecord): TunnelGroup { TunnelGroup(r.id, r.name, r.sortOrder) }

  function TunnelOf(r: TunnelRecord): Result<TunnelConfig, ConfigError> {
    if |r.jumpChain| > MAX_JUMP_HOPS then Err(BadTunnel(r.id, JumpChainTooLong))
    else if r.remoteHost.Some? != r.remotePort.Some? then Err(BadTunnel(r.id, RemoteHalfSet))
    else
      var remote := if r.remoteHost.Some? then Some(Endpoint(r.remoteHost.value, r.remotePort.value)) else None;
      var reconnect := RetryPolicy(FromMillis(r.reconnectBaseMs), FromMillis(r.reconnectMaxMs),
                                   FromMillis(r.reconnectResetMs), r.reconnectJitterPercent);
      Ok(TunnelConfig(r.id, r.name, r.groupId, r.mode, r.jumpChain, Endpoint(r.localHost, r.localPort), remote,
                      r.autoStart, reconnect, r.description))
  }

  function HostRecordOf(h: SshHost): Result<HostRecord, ConfigError> {
    var timeout, interval := Milliseconds(h.connectTimeout), Milliseconds(h.keepaliveInterval);
    if timeout.Err? then Err(timeout.error)
    else if interval.Err? then Err(interval.error)
    else
      var (authType, credentialRef, identityFile, passphraseRef, agentSocket) :=
        match h.auth
        case Password(credential) => (ByPassword, Some(credential), None, None, None)
        case PrivateKey(path, passphrase) => (ByPrivateKey, None, Some(path), passphrase, None)
        case Agent(socket) => (ByAgent, None, None, None, socket)
        case KeyboardInteractive => (ByKeyboard, None, None, None, None);
      Ok(HostRecord(h.id, h.name, h.hostname, h.port, h.username, authType, credentialRef, identityFile, passphraseRef,
                    agentSocket, h.hostKeyPolicy, timeout.value, interval.value, h.keepaliveMax, h.notes))
  }

  function GroupRecordOf(g: TunnelGroup): GroupRecord { GroupRecord(g.id, g.name, g.sortOrder) }

  function TunnelRecordOf(t: TunnelConfig): Result<TunnelRecord, ConfigError> {
    var p := t.reconnect;
    var base, max, reset := Milliseconds(p.baseDelay), Milliseconds(p.maxDelay), Milliseconds(p.resetAfterHealthy);
    if base.Err? then Err(base.error)
    else if max.Err? then Err(max.error)
    else if reset.Err? then Err(reset.error)
    else
      Ok(TunnelRecord(t.id, t.name, t.groupId, t.mode, t.jumpChain, t.local.host, t.local.port,
                      if t.remote.Some? then Some(t.remote.value.host) else None,
                      if t.remote.Some? then Some(t.remote.value.port) else None,
                      t.autoStart, base.value, max.value, reset.value, t.reconnect.jitterPercent, t.description))
  }

  // ----- lists of records -----

  /** Converts records in order, refusing an id seen before. */
  function ConvertAll<R, D>(records: seq<R>, kind: Kind, id: R -> string, convert: R -> Result<D, ConfigError>)
    : Result<seq<D>, ConfigError>
  {
    if |records| == 0 then Ok([])
    else
      var n := |records| - 1;
      match ConvertAll(records[..n], kind, id, convert)
      case Err(e) => Err(e)
      case Ok(before) =>
        if Seen(records[..n], id, id(records[n])) then Err(DuplicateId(kind, id(records[n])))
        else
          match convert(records[n])
          case Err(e) => Err(e)
          case Ok(item) => Ok(before + [item])
  }

  predicate Seen<R>(records: seq<R>, id: R -> string, wanted: string) {
    exists i :: 0 <= i < |records| && id(records[i]) == wanted
  }

  ghost predicate DistinctIds<R>(records: seq<R>, id: R -> string) {
    forall i, j | 0 <= i < j < |records| :: id(records[i]) != id(records[j])
  }

  /** The loop that converts a list; `ids` holds what it has inserted. */
  method ConvertEntries<R, D>(records: seq<R>, kind: Kind, id: R -> string, convert: R -> Result<D, ConfigError>)
    returns (r: Result<seq<D>, ConfigError>)
    ensures r == ConvertAll(records, kind, id, convert)
  {
    var ids: set<string> := {};
    var items := [];
    for n := 0 to |records|
      invariant ConvertAll(records[..n], kind, id, convert) == Ok(items)
      invariant forall x :: x in ids <==> Seen(records[..n], id, x)
    {
      var record := records[n];
      var next := records[..n + 1];
      assert next[..n] == records[..n] && next[n] == record;
      if id(record) in ids {
        FirstErrorWins(records, n + 1, kind, id, convert);
        return Err(DuplicateId(kind, id(record)));
      }
      ids := ids + {id(record)};
      SeenNext(records, n, id);
      var item := convert(record);
      if item.Err? {
        FirstErrorWins(records, n + 1, kind, id, convert);
        return Err(item.error);
      }
      items := items + [item.value];
    }
    assert records[..|records|] == records;
    return Ok(items);
  }

  lemma SeenNext<R>(records: seq<R>, n: nat, id: R -> string)
    requires n < |records|
    ensures forall x :: Seen(records[..n + 1], id, x) <==> Seen(records[..n], id, x) || x == id(records[n])
  {
    var next := records[..n + 1];
    assert forall i | 0 <= i < n :: next[i] == records[..n][i];
    forall x ensures Seen(next, id, x) <==> Seen(records[..n], id, x) || x == id(records[n]) {
      assert next[n] == records[n];
    }
  }

  lemma {:induction false} FirstErrorWins<R, D>(records: seq<R>, n: nat, kind: Kind, id: R -> string,
                                                convert: R -> Result<D, ConfigError>)
    requires n <= |records| && ConvertAll(records[..n], kind, id, convert).Err?
    ensures ConvertAll(records, kind, id, convert) == ConvertAll(records[..n], kind, id, convert)
  {
    if n < |records| {
      var init := records[..|records| - 1];
      assert init[..n] == records[..n];
      FirstErrorWins(init, n, kind, id, convert);
    } else {
      assert records[..n] == records;
    }
  }

  /** A list converts exactly when its ids differ and each record does, and then record by record. */
  lemma {:induction false} ConvertsExactly<R, D>(records: seq<R>, kind: Kind, id: R -> string,
                                                 convert: R -> Result<D, ConfigError>)
    ensures var r := ConvertAll(records, kind, id, convert);
            && (r.Ok? <==> DistinctIds(records, id) && forall i | 0 <= i < |records| :: convert(records[i]).Ok?)
            && (r.Ok? ==>
                  |r.value| == |records| && forall i | 0 <= i < |records| :: convert(records[i]) == Ok(r.value[i]))
  {
    if |records| > 0 {
      var n := |records| - 1;
      ConvertsExactly(records[..n], kind, id, convert);
      assert Seen(records[..n], id, id(records[n])) <==> exists i :: 0 <= i < n && id(records[i]) == id(records[n]) by {
        assert forall i | 0 <= i < n :: records[..n][i] == records[i];
      }
    }
  }

  function CollectAll<D, R>(items: seq<D>, back: D -> Result<R, ConfigError>): Result<seq<R>, ConfigError> {
    if |items| == 0 then Ok([])
    else
      var n := |items| - 1;
      match CollectAll(items[..n], back)
      case Err(e) => Err(e)
      case Ok(before) =>
        match back(items[n])
        case Err(e) => Err(e)
        case Ok(record) => Ok(before + [record])
  }

  lemma {:induction false} CollectsExactly<D, R>(items: seq<D>, back: D -> Result<R, ConfigError>)
    ensures var r := CollectAll(items, back);
            && (r.Ok? <==> forall i | 0 <= i < |items| :: back(items[i]).Ok?)
            && (r.Ok? ==> |r.value| == |items| && forall i | 0 <= i < |items| :: back(items[i]) == Ok(r.value[i]))
  {
    if |items| > 0 {
      CollectsExactly(items[..|items| - 1], back);
    }
  }

  /** A record survives being converted and written back. */
  ghost predicate Survives<R, D>(item: D, id: R -> string, named: string, convert: R -> Result<D, ConfigError>,
                                 back: D -> Result<R, ConfigError>)
  {
    back(item).Ok? && id(back(item).value) == named && convert(back(item).value) == Ok(item)
  }

  lemma ListSurvives<R, D>(records: seq<R>, kind: Kind, id: R -> string, convert: R -> Result<D, ConfigError>,
                           back: D -> Result<R, ConfigError>)
    requires ConvertAll(records, kind, id, convert).Ok?
    requires forall i | 0 <= i < |records| && convert(records[i]).Ok? ::
      Survives(convert(records[i]).value, id, id(records[i]), convert, back)
    ensures var items := ConvertAll(records, kind, id, convert).value;
            && |items| == |records| && CollectAll(items, back).Ok?
            && |CollectAll(items, back).value| == |records|
            && ConvertAll(CollectAll(items, back).value, kind, id, convert) == Ok(items)
  {
    ConvertsExactly(records, kind, id, convert);
    var items := ConvertAll(records, kind, id, convert).value;
    forall i | 0 <= i < |items| ensures back(items[i]).Ok? {
      assert Survives(convert(records[i]).value, id, id(records[i]), convert, back);
    }
    CollectsExactly(items, back);
    var again := CollectAll(items, back).value;
    forall i | 0 <= i < |again| ensures id(again[i]) == id(records[i]) && convert(again[i]) == Ok(items[i]) {
      assert Survives(convert(records[i]).value, id, id(records[i]), convert, back);
    }
    ConvertsExactly(again, kind, id, convert);
    var twice := ConvertAll(again, kind, id, convert).value;
    assert forall i | 0 <= i < |items| :: Ok(twice[i]) == convert(again[i]) == Ok(items[i]);
  }

  // ----- whole documents -----

  const HOST_ID: HostRecord -> string := (r: HostRecord) => r.id
  const GROUP_ID: GroupRecord -> string := (r: GroupRecord) => r.id
  const TUNNEL_ID: TunnelRecord -> string := (r: TunnelRecord) => r.id

  function HostReader(home: Option<Path>): HostRecord -> Result<SshHost, ConfigError> {
    r => HostOf(r, home)
  }

  function GroupReader(): GroupRecord -> Result<TunnelGroup, ConfigError> {
    r => Ok(GroupOf(r))
  }

  /** Tunnels are checked against the hosts and groups already converted. */
  function TunnelReader(hosts: seq<SshHost>, groups: seq<TunnelGroup>, isIp: string -> bool)
    : TunnelRecord -> Result<TunnelConfig, ConfigError>
  {
    r => CheckedTunnel(r, hosts, groups, isIp)
  }

  function CheckedTunnel(r: TunnelRecord, hosts: seq<SshHost>, groups: seq<TunnelGroup>, isIp: string -> bool)
    : Result<TunnelConfig, ConfigError>
  {
    match TunnelOf(r)
    case Err(e) => Err(e)
    case Ok(t) =>
      match Validate(t, hosts, groups, isIp)
      case Err(reason) => Err(BadTunnel(r.id, Rejected(reason)))
      case Ok(_) => Ok(t)
  }

  function CountError(doc: ConfigDocument): Option<ConfigError> {
    if doc.schemaVersion != SCHEMA_VERSION then Some(UnsupportedVersion(doc.schemaVersion))
    else if |doc.hosts| > MAX_HOSTS then Some(TooManyEntries(HostEntry))
    else if |doc.groups| > MAX_GROUPS then Some(TooManyEntries(GroupEntry))
    else if |doc.tunnels| > MAX_TUNNELS then Some(TooManyEntries(TunnelEntry))
    else None
  }

  function HostsOf(doc: ConfigDocument, m: Machine): Result<seq<SshHost>, ConfigError> {
    ConvertAll(doc.hosts, HostEntry, HOST_ID, HostReader(m.home))
  }

  function GroupsOf(doc: ConfigDocument): Result<seq<TunnelGroup>, ConfigError> {
    ConvertAll(doc.groups, GroupEntry, GROUP_ID, GroupReader())
  }

  function TunnelsOf(doc: ConfigDocument, hosts: seq<SshHost>, groups: seq<TunnelGroup>, m: Machine)
    : Result<seq<TunnelConfig>, ConfigError>
  {
    ConvertAll(doc.tunnels, TunnelEntry, TUNNEL_ID, TunnelReader(hosts, groups, m.isIp))
  }

  function DomainOf(doc: ConfigDocument, m: Machine): Result<DomainConfig, ConfigError> {
    var counts, hosts, groups := CountError(doc), HostsOf(doc, m), GroupsOf(doc);
    if counts.Some? then Err(counts.value)
    else if hosts.Err? then Err(hosts.error)
    else if groups.Err? then Err(groups.error)
    else
      match TunnelsOf(doc, hosts.value, groups.value, m)
      case Err(e) => Err(e)
      case Ok(tunnels) => Ok(DomainConfig(doc.app, hosts.value, groups.value, tunnels))
  }

  method IntoDomain(doc: ConfigDocument, m: Machine) returns (r: Result<DomainConfig, ConfigError>)
    ensures r == DomainOf(doc, m)
    ensures r.Ok? ==> ReadsAs(doc, r.value, m.home)
  {
    var counts := CountError(doc);
    if counts.Some? {
      return Err(counts.value);
    }
    var hosts := ConvertEntries(doc.hosts, HostEntry, HOST_ID, HostReader(m.home));
    if hosts.Err? {
      return Err(hosts.error);
    }
    var groups := ConvertEntries(doc.groups, GroupEntry, GROUP_ID, GroupReader());
    if groups.Err? {
      return Err(groups.error);
    }
    var tunnels := ConvertEntries(doc.tunnels, TunnelEntry, TUNNEL_ID, TunnelReader(hosts.value, groups.value, m.isIp));
    if tunnels.Err? {
      return Err(tunnels.error);
    }
    r := Ok(DomainConfig(doc.app, hosts.value, groups.value, tunnels.value));
    AcceptedIsRead(doc, m);
  }

  // ----- what is read -----

  /** A path with the home directory in the place of its tilde. */
  ghost predicate Expands(path: Path, written: Path, home: Option<Path>) {
    if |written| > 0 && written[0] == "~" then home.Some? && path == home.value + written[1..] else path == written
  }

  ghost predicate AuthRead(auth: AuthConfig, r: HostRecord, home: Option<Path>) {
    match r.authType
    case ByPassword => r.credentialRef.Some? && auth == Password(r.credentialRef.value)
    case ByPrivateKey =>
      && auth.PrivateKey? && auth.passphraseRef == r.passphraseRef
      && r.identityFile.Some? && Expands(auth.keyPath, r.identityFile.value, home)
    case ByAgent => auth == Agent(r.agentSocket)
    case ByKeyboard => auth == KeyboardInteractive
  }

  /** The host carries what its record says. */
  ghost predicate HostRead(h: SshHost, r: HostRecord, home: Option<Path>) {
    && h.id == r.id && h.name == r.name && h.hostname == r.hostname && h.port == r.port && h.username == r.username
    && AuthRead(h.auth, r, home) && h.hostKeyPolicy == r.hostKeyPolicy
    && h.connectTimeout == r.connectTimeoutMs * 1_000_000 && h.keepaliveInterval == r.keepaliveIntervalMs * 1_000_000
    && h.keepaliveMax == r.keepaliveMax && h.notes == r.notes
  }

  ghost predicate GroupRead(g: TunnelGroup, r: GroupRecord) {
    g.id == r.id && g.name == r.name && g.sortOrder == r.sortOrder
  }

  ghost predicate TunnelRead(t: TunnelConfig, r: TunnelRecord) {
    && t.id == r.id && t.name == r.name && t.groupId == r.groupId && t.mode == r.mode && t.jumpChain == r.jumpChain
    && t.local.host == r.localHost && t.local.port == r.localPort
    && (t.remote.None? ==> r.remoteHost.None? && r.remotePort.None?)
    && (t.remote.Some? ==> r.remoteHost == Some(t.remote.value.host) && r.remotePort == Some(t.remote.value.port))
    && t.autoStart == r.autoStart && t.description == r.description
    && t.reconnect.baseDelay == r.reconnectBaseMs * 1_000_000 && t.reconnect.maxDelay == r.reconnectMaxMs * 1_000_000
    && t.reconnect.resetAfterHealthy == r.reconnectResetMs * 1_000_000
    && t.reconnect.jitterPercent == r.reconnectJitterPercent
  }

  /** The domain carries the document, item by item and field by field. */
  ghost predicate ReadsAs(doc: ConfigDocument, d: DomainConfig, home: Option<Path>) {
    && d.app == doc.app
    && |d.hosts| == |doc.hosts| && |d.groups| == |doc.groups| && |d.tunnels| == |doc.tunnels|
    && (forall i | 0 <= i < |d.hosts| :: HostRead(d.hosts[i], doc.hosts[i], home))
    && (forall i | 0 <= i < |d.groups| :: GroupRead(d.groups[i], doc.groups[i]))
    && (forall i | 0 <= i < |d.tunnels| :: TunnelRead(d.tunnels[i], doc.tunnels[i]))
  }

  lemma HostIsRead(r: HostRecord, h: SshHost, home: Option<Path>)
    requires HostOf(r, home) == Ok(h)
    ensures HostRead(h, r, home)
  {
  }

  lemma TunnelIsRead(r: TunnelRecord, t: TunnelConfig, hosts: seq<SshHost>, groups: seq<TunnelGroup>,
                     isIp: string -> bool)
    requires CheckedTunnel(r, hosts, groups, isIp) == Ok(t)
    ensures TunnelRead(t, r)
  {
  }

  lemma AcceptedIsRead(doc: ConfigDocument, m: Machine)
    requires DomainOf(doc, m).Ok?
    ensures ReadsAs(doc, DomainOf(doc, m).value, m.home)
  {
    var d := DomainOf(doc, m).value;
    ConvertsExactly(doc.hosts, HostEntry, HOST_ID, HostReader(m.home));
    forall i | 0 <= i < |d.hosts| ensures HostRead(d.hosts[i], doc.hosts[i], m.home) {
      assert HostReader(m.home)(doc.hosts[i]) == Ok(d.hosts[i]);
      HostIsRead(doc.hosts[i], d.hosts[i], m.home);
    }
    ConvertsExactly(doc.groups, GroupEntry, GROUP_ID, GroupReader());
    forall i | 0 <= i < |d.groups| ensures GroupRead(d.groups[i], doc.groups[i]) {
      assert GroupReader()(doc.groups[i]) == Ok(d.groups[i]);
    }
    var reader := TunnelReader(d.hosts, d.groups, m.isIp);
    ConvertsExactly(doc.tunnels, TunnelEntry, TUNNEL_ID, reader);
    forall i | 0 <= i < |d.tunnels| ensures TunnelRead(d.tunnels[i], doc.tunnels[i]) {
      assert reader(doc.tunnels[i]) == Ok(d.tunnels[i]);
      TunnelIsRead(doc.tunnels[i], d.tunnels[i], d.hosts, d.groups, m.isIp);
    }
  }

  function HostWriter(): SshHost -> Result<HostRecord, ConfigError> { h => HostRecordOf(h) }

  function GroupWriter(): TunnelGroup -> Result<GroupRecord, ConfigError> { g => Ok(GroupRecordOf(g)) }

  function TunnelWriter(): TunnelConfig -> Result<TunnelRecord, ConfigError> { t => TunnelRecordOf(t) }

  function DocumentOf(d: DomainConfig): Result<ConfigDocument, ConfigError> {
    var hosts, groups, tunnels :=
      CollectAll(d.hosts, HostWriter()), CollectAll(d.groups, GroupWriter()), CollectAll(d.tunnels, TunnelWriter());
    if hosts.Err? then Err(hosts.error)
    else if groups.Err? then Err(groups.error)
    else if tunnels.Err? then Err(tunnels.error)
    else Ok(ConfigDocument(SCHEMA_VERSION, d.app, hosts.value, groups.value, tunnels.value))
  }

  // ----- round trip -----

  /** Expanding a path under this home leaves nothing more to expand. */
  predicate StableHome(home: Option<Path>) {
    home.None? || home.value == [TILDE] || (home.value != [] && home.value[0] != TILDE)
  }

  lemma MillisSurvive(ms: U64)
    ensures Milliseconds(FromMillis(ms)) == Ok(ms)
  {
  }

  lemma ExpandTwice(path: Path, home: Option<Path>)
    requires StableHome(home) && ExpandHome(path, home).Some?
    ensures ExpandHome(ExpandHome(path, home).value, home) == ExpandHome(path, home)
  {
  }

  lemma HostSurvives(r: HostRecord, home: Option<Path>)
    requires HostOf(r, home).Ok? && StableHome(home)
    ensures Survives(HostOf(r, home).value, HOST_ID, r.id, HostReader(home), HostWriter())
  {
    MillisSurvive(r.connectTimeoutMs);
    MillisSurvive(r.keepaliveIntervalMs);
    if r.authType == ByPrivateKey {
      ExpandTwice(r.identityFile.value, home);
    }
  }

  lemma TunnelSurvives(r: TunnelRecord, hosts: seq<SshHost>, groups: seq<TunnelGroup>, isIp: string -> bool)
    requires CheckedTunnel(r, hosts, groups, isIp).Ok?
    ensures Survives(CheckedTunnel(r, hosts, groups, isIp).value, TUNNEL_ID, r.id, TunnelReader(hosts, groups, isIp),
                     TunnelWriter())
  {
    MillisSurvive(r.reconnectBaseMs);
    MillisSurvive(r.reconnectMaxMs);
    MillisSurvive(r.reconnectResetMs);
  }

  /** Writing an accepted document's domain back gives a document that is accepted with the very same domain. */
  ghost predicate RoundTrips(doc: ConfigDocument, m: Machine)
    requires DomainOf(doc, m).Ok?
  {
    var d := DomainOf(doc, m).value;
    DocumentOf(d).Ok? && DomainOf(DocumentOf(d).value, m) == Ok(d)
  }

  lemma RoundTrip(doc: ConfigDocument, m: Machine)
    requires DomainOf(doc, m).Ok? && StableHome(m.home)
    ensures RoundTrips(doc, m)
  {
    var d := DomainOf(doc, m).value;
    forall i | 0 <= i < |doc.hosts| && HostReader(m.home)(doc.hosts[i]).Ok?
      ensures Survives(HostReader(m.home)(doc.hosts[i]).value, HOST_ID, HOST_ID(doc.hosts[i]), HostReader(m.home),
                       HostWriter())
    {
      HostSurvives(doc.hosts[i], m.home);
    }
    ListSurvives(doc.hosts, HostEntry, HOST_ID, HostReader(m.home), HostWriter());
    ListSurvives(doc.groups, GroupEntry, GROUP_ID, GroupReader(), GroupWriter());
    var reader := TunnelReader(d.hosts, d.groups, m.isIp);
    forall i | 0 <= i < |doc.tunnels| && reader(doc.tunnels[i]).Ok?
      ensures Survives(reader(doc.tunnels[i]).value, TUNNEL_ID, TUNNEL_ID(doc.tunnels[i]), reader, TunnelWriter())
    {
      TunnelSurvives(doc.tunnels[i], d.hosts, d.groups, m.isIp);
    }
    ListSurvives(doc.tunnels, TunnelEntry, TUNNEL_ID, reader, TunnelWriter());
  }

  /** A document with a single host. */
  function Single(r: HostRecord): ConfigDocument {
    ConfigDocument(SCHEMA_VERSION, AppSettings(System, false, true, false), [r], [], [])
  }

  function SingleDomain(h: SshHost): DomainConfig { DomainConfig(AppSettings(System, false, true, false), [h], [], []) }

  lemma SingleIsRead(r: HostRecord, m: Machine)
    ensures DomainOf(Single(r), m).Ok? <==> HostOf(r, m.home).Ok?
    ensures HostOf(r, m.home).Ok? ==> DomainOf(Single(r), m) == Ok(SingleDomain(HostOf(r, m.home).value))
  {
    var doc := Single(r);
    ConvertsExactly(doc.hosts, HostEntry, HOST_ID, HostReader(m.home));
    assert HostReader(m.home)(doc.hosts[0]) == HostOf(r, m.home);
    if HostOf(r, m.home).Ok? {
      assert HostsOf(doc, m).value == [HostOf(r, m.home).value];
    }
  }

  lemma SingleIsWritten(h: SshHost)
    ensures DocumentOf(SingleDomain(h)).Ok? <==> HostRecordOf(h).Ok?
    ensures HostRecordOf(h).Ok? ==> DocumentOf(SingleDomain(h)) == Ok(Single(HostRecordOf(h).value))
  {
    var d := SingleDomain(h);
    CollectsExactly(d.hosts, HostWriter());
    assert HostWriter()(d.hosts[0]) == HostRecordOf(h);
    if HostRecordOf(h).Ok? {
      assert CollectAll(d.hosts, HostWriter()).value == [HostRecordOf(h).value];
    }
  }

  /** A host whose key path still expands to another is read back differently. */
  lemma KeyMoves(h: SshHost, home: Option<Path>)
    requires h.auth.PrivateKey? && ExpandHome(h.auth.keyPath, home) != Some(h.auth.keyPath)
    ensures HostRecordOf(h).Ok? ==> HostOf(HostRecordOf(h).value, home) != Ok(h)
  {
  }

  /** Under any other home some document is accepted and then read back differently. */
  lemma UnstableHomeLosesKeys(m: Machine) returns (doc: ConfigDocument)
    requires !StableHome(m.home)
    ensures DomainOf(doc, m).Ok? && !RoundTrips(doc, m)
  {
    var record := TildeRecord();
    var host := TildeHost(m.home);
    doc := Single(record);
    SingleIsRead(record, m);
    SingleIsWritten(host);
    KeyMoves(host, m.home);
    if HostRecordOf(host).Ok? {
      SingleIsRead(HostRecordOf(host).value, m);
    }
  }

  function TildeRecord(): HostRecord {
    HostRecord("a", "a", "a", 22, "a", ByPrivateKey, None, Some([TILDE, TILDE]), None, None, Strict, 1, 1, 1, "")
  }

  lemma TildeHost(home: Option<Path>) returns (h: SshHost)
    requires !StableHome(home)
    ensures HostOf(TildeRecord(), home) == Ok(h)
    ensures h.auth.PrivateKey? && ExpandHome(h.auth.keyPath, home) != Some(h.auth.keyPath)
  {
    assert !Blank("a") by {
      assert !IsWhitespace("a"[0]);
    }
    h := HostOf(TildeRecord(), home).value;
    assert [TILDE, TILDE][1..] == [TILDE];
    assert h.auth == PrivateKey(home.value + [TILDE], None);
    assert ExpandHome(h.auth.keyPath, home).value == home.value + h.auth.keyPath[1..];
    if home.value == [] {
      assert |h.auth.keyPath| == 1;
    } else {
      assert |ExpandHome(h.auth.keyPath, home).value| == 2 * |home.value|;
    }
  }

  /** Reading and writing agree on every document exactly when the home directory is stable. */
  lemma RoundTripsExactlyWhen(m: Machine)
    ensures StableHome(m.home) <==> forall doc | DomainOf(doc, m).Ok? :: RoundTrips(doc, m)
  {
    if StableHome(m.home) {
      forall doc | DomainOf(doc, m).Ok? ensures RoundTrips(doc, m) {
        RoundTrip(doc, m);
      }
    } else {
      var doc := UnstableHomeLosesKeys(m);
    }
  }

  // ----- what an accepted document guarantees -----

  function TunnelIds(tunnels: seq<TunnelConfig>): seq<string> {
    seq(|tunnels|, i requires 0 <= i < |tunnels| => tunnels[i].id)
  }

  lemma UniqueHosts(doc: ConfigDocument, m: Machine)
    requires HostsOf(doc, m).Ok?
    ensures |HostsOf(doc, m).value| == |doc.hosts| && Distinct(HostIds(HostsOf(doc, m).value))
  {
    ConvertsExactly(doc.hosts, HostEntry, HOST_ID, HostReader(m.home));
    var hosts := HostsOf(doc, m).value;
    forall i | 0 <= i < |hosts| ensures hosts[i].id == HOST_ID(doc.hosts[i]) {
      assert HostReader(m.home)(doc.hosts[i]) == Ok(hosts[i]);
    }
  }

  lemma UniqueGroups(doc: ConfigDocument)
    requires GroupsOf(doc).Ok?
    ensures |GroupsOf(doc).value| == |doc.groups| && Distinct(GroupIds(GroupsOf(doc).value))
  {
    ConvertsExactly(doc.groups, GroupEntry, GROUP_ID, GroupReader());
    var groups := GroupsOf(doc).value;
    forall i | 0 <= i < |groups| ensures groups[i].id == GROUP_ID(doc.groups[i]) {
      assert GroupReader()(doc.groups[i]) == Ok(groups[i]);
    }
  }

  lemma UniqueTunnels(doc: ConfigDocument, hosts: seq<SshHost>, groups: seq<TunnelGroup>, m: Machine)
    requires TunnelsOf(doc, hosts, groups, m).Ok?
    ensures var tunnels := TunnelsOf(doc, hosts, groups, m).value;
            && |tunnels| == |doc.tunnels| && Distinct(TunnelIds(tunnels))
            && forall i | 0 <= i < |tunnels| :: CheckedTunnel(doc.tunnels[i], hosts, groups, m.isIp) == Ok(tunnels[i])
  {
    var reader := TunnelReader(hosts, groups, m.isIp);
    ConvertsExactly(doc.tunnels, TunnelEntry, TUNNEL_ID, reader);
    var tunnels := TunnelsOf(doc, hosts, groups, m).value;
    forall i | 0 <= i < |tunnels|
      ensures tunnels[i].id == TUNNEL_ID(doc.tunnels[i])
      ensures CheckedTunnel(doc.tunnels[i], hosts, groups, m.isIp) == Ok(tunnels[i])
    {
      assert reader(doc.tunnels[i]) == Ok(tunnels[i]);
    }
  }

  ghost predicate Runnable(t: TunnelConfig, d: DomainConfig, m: Machine) {
    && Startable(t, d.hosts, d.groups, m.isIp)
    && 1 <= |t.jumpChain| <= MAX_JUMP_HOPS && Resolve(t.jumpChain, d.hosts).Some?
  }

  lemma CheckedIsRunnable(r: TunnelRecord, t: TunnelConfig, d: DomainConfig, m: Machine)
    requires CheckedTunnel(r, d.hosts, d.groups, m.isIp) == Ok(t)
    ensures Runnable(t, d, m)
  {
    ValidateAcceptsExactly(t, d.hosts, d.groups, m.isIp);
    ValidatedChainResolves(t, d.hosts, d.groups, m.isIp);
  }

  /** In an accepted document ids are unique, and every tunnel may start with its whole jump chain configured. */
  lemma AcceptedIsRunnable(doc: ConfigDocument, m: Machine)
    requires DomainOf(doc, m).Ok?
    ensures var d := DomainOf(doc, m).value;
            && |d.hosts| == |doc.hosts| <= MAX_HOSTS && |d.groups| == |doc.groups| <= MAX_GROUPS
            && |d.tunnels| == |doc.tunnels| <= MAX_TUNNELS
            && Distinct(HostIds(d.hosts)) && Distinct(GroupIds(d.groups)) && Distinct(TunnelIds(d.tunnels))
            && forall i | 0 <= i < |d.tunnels| :: Runnable(d.tunnels[i], d, m)
  {
    var d := DomainOf(doc, m).value;
    UniqueHosts(doc, m);
    UniqueGroups(doc);
    UniqueTunnels(doc, d.hosts, d.groups, m);
    forall i | 0 <= i < |d.tunnels| ensures Runnable(d.tunnels[i], d, m) {
      CheckedIsRunnable(doc.tunnels[i], d.tunnels[i], d, m);
    }
  }

  ghost predicate UsableHost(r: HostRecord, home: Option<Path>) {
    && !Blank(r.id) && !Blank(r.name) && !Blank(r.hostname) && !Blank(r.username)
    && r.port != 0 && r.connectTimeoutMs != 0 && r.keepaliveMax != 0
    && (r.authType.ByPassword? ==> r.credentialRef.Some? && r.credentialRef.value != "")
    && (r.authType.ByPrivateKey? ==>
          r.identityFile.Some? && (home.Some? || r.identityFile.value == [] || r.identityFile.value[0] != TILDE))
  }

  ghost predicate UsableTunnel(r: TunnelRecord, hosts: seq<SshHost>, groups: seq<TunnelGroup>, isIp: string -> bool) {
    && |r.jumpChain| <= 16
    && (r.remoteHost.Some? <==> r.remotePort.Some?)
    && Startable(TunnelOf(r).value, hosts, groups, isIp)
  }

  /** A document is accepted exactly when nothing in it is unusable, repeated or too much. */
  lemma AcceptsExactly(doc: ConfigDocument, m: Machine)
    ensures DomainOf(doc, m).Ok? <==>
      && doc.schemaVersion == 1
      && |doc.hosts| <= 512 && |doc.groups| <= 128 && |doc.tunnels| <= 1024
      && DistinctIds(doc.hosts, HOST_ID) && DistinctIds(doc.groups, GROUP_ID) && DistinctIds(doc.tunnels, TUNNEL_ID)
      && (forall i | 0 <= i < |doc.hosts| :: UsableHost(doc.hosts[i], m.home))
      && HostsOf(doc, m).Ok? && GroupsOf(doc).Ok?
      && forall i | 0 <= i < |doc.tunnels| ::
           UsableTunnel(doc.tunnels[i], HostsOf(doc, m).value, GroupsOf(doc).value, m.isIp)
    ensures HostsOf(doc, m).Ok? <==>
      DistinctIds(doc.hosts, HOST_ID) && forall i | 0 <= i < |doc.hosts| :: UsableHost(doc.hosts[i], m.home)
    ensures GroupsOf(doc).Ok? <==> DistinctIds(doc.groups, GROUP_ID)
  {
    HostsUsable(doc, m);
    ConvertsExactly(doc.groups, GroupEntry, GROUP_ID, GroupReader());
    assert forall i | 0 <= i < |doc.groups| :: GroupReader()(doc.groups[i]).Ok?;
    if HostsOf(doc, m).Ok? && GroupsOf(doc).Ok? {
      TunnelsUsable(doc, HostsOf(doc, m).value, GroupsOf(doc).value, m);
    }
  }

  lemma HostsUsable(doc: ConfigDocument, m: Machine)
    ensures HostsOf(doc, m).Ok? <==>
      DistinctIds(doc.hosts, HOST_ID) && forall i | 0 <= i < |doc.hosts| :: UsableHost(doc.hosts[i], m.home)
  {
    ConvertsExactly(doc.hosts, HostEntry, HOST_ID, HostReader(m.home));
    forall i | 0 <= i < |doc.hosts| ensures HostReader(m.home)(doc.hosts[i]).Ok? <==> UsableHost(doc.hosts[i], m.home) {
    }
  }

  lemma TunnelsUsable(doc: ConfigDocument, hosts: seq<SshHost>, groups: seq<TunnelGroup>, m: Machine)
    ensures TunnelsOf(doc, hosts, groups, m).Ok? <==>
      && DistinctIds(doc.tunnels, TUNNEL_ID)
      && forall i | 0 <= i < |doc.tunnels| :: UsableTunnel(doc.tunnels[i], hosts, groups, m.isIp)
  {
    var reader := TunnelReader(hosts, groups, m.isIp);
    ConvertsExactly(doc.tunnels, TunnelEntry, TUNNEL_ID, reader);
    forall i | 0 <= i < |doc.tunnels|
      ensures reader(doc.tunnels[i]).Ok? <==> UsableTunnel(doc.tunnels[i], hosts, groups, m.isIp)
    {
      if TunnelOf(doc.tunnels[i]).Ok? {
        ValidateAcceptsExactly(TunnelOf(doc.tunnels[i]).value, hosts, groups, m.isIp);
      }
    }
  }

  ghost predicate Writable(duration: nat) { duration / NANOS_PER_MILLI < 0x1_0000_0000_0000_0000 }

  /** A domain can be written back exactly when all its durations fit in 64-bit milliseconds. */
  lemma WritesExactly(d: DomainConfig)
    ensures DocumentOf(d).Ok? <==>
      && (forall h | h in d.hosts :: Writable(h.connectTimeout) && Writable(h.keepaliveInterval))
      && (forall t | t in d.tunnels :: Writable(t.reconnect.baseDelay) && Writable(t.reconnect.maxDelay)
                                       && Writable(t.reconnect.resetAfterHealthy))
    ensures DocumentOf(d).Err? ==> DocumentOf(d).error == DurationTooLarge
  {
    CollectsExactly(d.hosts, HostWriter());
    CollectsExactly(d.groups, GroupWriter());
    CollectsExactly(d.tunnels, TunnelWriter());
    CollectErrors(d.hosts, HostWriter());
    CollectErrors(d.tunnels, TunnelWriter());
    assert forall i | 0 <= i < |d.hosts| ::
        HostWriter()(d.hosts[i]).Ok? <==> Writable(d.hosts[i].connectTimeout) && Writable(d.hosts[i].keepaliveInterval);
    assert forall i | 0 <= i < |d.tunnels| ::
        TunnelWriter()(d.tunnels[i]).Ok? <==> var p := d.tunnels[i].reconnect;
          Writable(p.baseDelay) && Writable(p.maxDelay) && Writable(p.resetAfterHealthy);
  }

  lemma {:induction false} CollectErrors<D, R>(items: seq<D>, back: D -> Result<R, ConfigError>)
    requires forall i | 0 <= i < |items| :: back(items[i]).Err? ==> back(items[i]).error == DurationTooLarge
    ensures CollectAll(items, back).Err? ==> CollectAll(items, back).error == DurationTooLarge
  {
    if |items| > 0 {
      CollectErrors(items[..|items| - 1], back);
    }
  }

  /** Cut to whole milliseconds, which is what a document can hold. */
  function InMillis(duration: nat): nat { duration / 1_000_000 * 1_000_000 }

  function HostInMillis(h: SshHost): SshHost {
    h.(connectTimeout := InMillis(h.connectTimeout), keepaliveInterval := InMillis(h.keepaliveInterval))
  }

  function TunnelInMillis(t: TunnelConfig): TunnelConfig {
    t.(reconnect := t.reconnect.(baseDelay := InMillis(t.reconnect.baseDelay),
                                 maxDelay := InMillis(t.reconnect.maxDelay),
                                 resetAfterHealthy := InMillis(t.reconnect.resetAfterHealthy)))
  }

  /** What is written carries the domain up to whole milliseconds; paths are written as they are, tilde or not. */
  lemma WrittenIsCarried(d: DomainConfig)
    requires DocumentOf(d).Ok?
    ensures var doc := DocumentOf(d).value;
            && doc.schemaVersion == 1 && doc.app == d.app
            && |doc.hosts| == |d.hosts| && |doc.groups| == |d.groups| && |doc.tunnels| == |d.tunnels|
            && (forall i | 0 <= i < |d.hosts| :: HostRead(HostInMillis(d.hosts[i]), doc.hosts[i], Some(["~"])))
            && (forall i | 0 <= i < |d.groups| :: GroupRead(d.groups[i], doc.groups[i]))
            && (forall i | 0 <= i < |d.tunnels| :: TunnelRead(TunnelInMillis(d.tunnels[i]), doc.tunnels[i]))
  {
    var doc := DocumentOf(d).value;
    CollectsExactly(d.hosts, HostWriter());
    forall i | 0 <= i < |d.hosts| ensures HostRead(HostInMillis(d.hosts[i]), doc.hosts[i], Some(["~"])) {
      assert HostWriter()(d.hosts[i]) == Ok(doc.hosts[i]);
      HostIsWritten(d.hosts[i], doc.hosts[i]);
    }
    CollectsExactly(d.groups, GroupWriter());
    forall i | 0 <= i < |d.groups| ensures GroupRead(d.groups[i], doc.groups[i]) {
      assert GroupWriter()(d.groups[i]) == Ok(doc.groups[i]);
    }
    CollectsExactly(d.tunnels, TunnelWriter());
    forall i | 0 <= i < |d.tunnels| ensures TunnelRead(TunnelInMillis(d.tunnels[i]), doc.tunnels[i]) {
      assert TunnelWriter()(d.tunnels[i]) == Ok(doc.tunnels[i]);
      TunnelIsWritten(d.tunnels[i], doc.tunnels[i]);
    }
  }

  lemma HostIsWritten(h: SshHost, r: HostRecord)
    requires HostRecordOf(h) == Ok(r)
    ensures HostRead(HostInMillis(h), r, Some(["~"]))
  {
    if h.auth.PrivateKey? && |h.auth.keyPath| > 0 && h.auth.keyPath[0] == "~" {
      assert h.auth.keyPath == ["~"] + h.auth.keyPath[1..];
    }
  }

  lemma TunnelIsWritten(t: TunnelConfig, r: TunnelRecord)
    requires TunnelRecordOf(t) == Ok(r)
    ensures TunnelRead(TunnelInMillis(t), r)
  {
  }

  // ----- what a refusal says -----

  ghost predicate Repeats<R(!new)>(records: seq<R>, id: R -> string, x: string) {
    exists i, j :: 0 <= i < j < |records| && id(records[i]) == x == id(records[j])
  }

  ghost predicate Refuses<R(!new), D(!new)>(records: seq<R>, convert: R -> Result<D, ConfigError>, e: ConfigError) {
    exists i :: 0 <= i < |records| && convert(records[i]) == Err(e)
  }

  lemma {:induction false} ListErrorIsTrue<R(!new), D(!new)>(records: seq<R>, kind: Kind, id: R -> string,
                                                             convert: R -> Result<D, ConfigError>)
    requires ConvertAll(records, kind, id, convert).Err?
    ensures var e := ConvertAll(records, kind, id, convert).error;
            (e.DuplicateId? && e.kind == kind && Repeats(records, id, e.id)) || Refuses(records, convert, e)
  {
    var n := |records| - 1;
    var init := records[..n];
    assert forall i | 0 <= i < n :: init[i] == records[i];
    if ConvertAll(init, kind, id, convert).Err? {
      ListErrorIsTrue(init, kind, id, convert);
      var e := ConvertAll(init, kind, id, convert).error;
      if Refuses(init, convert, e) {
        var i :| 0 <= i < n && convert(init[i]) == Err(e);
        assert convert(records[i]) == Err(e);
      } else {
        var i, j :| 0 <= i < j < n && id(init[i]) == e.id == id(init[j]);
        assert id(records[i]) == e.id == id(records[j]);
      }
    } else if Seen(init, id, id(records[n])) {
      var i :| 0 <= i < n && id(init[i]) == id(records[n]);
      assert id(records[i]) == id(records[n]);
    } else {
      assert convert(records[n]) == Err(ConvertAll(records, kind, id, convert).error);
    }
  }

  /** The fault is one the record has. */
  ghost predicate HostHas(r: HostRecord, fault: HostFault, home: Option<Path>) {
    match fault
    case RequiredFieldMissing =>
      || Blank(r.id) || Blank(r.name) || Blank(r.hostname) || Blank(r.username) || r.port == 0
      || r.connectTimeoutMs == 0 || r.keepaliveMax == 0
    case CredentialRefMissing => r.authType == ByPassword && (r.credentialRef.None? || r.credentialRef == Some(""))
    case IdentityFileMissing => r.authType == ByPrivateKey && r.identityFile.None?
    case HomeUnavailable =>
      r.authType == ByPrivateKey && home.None? && r.identityFile.Some?
      && |r.identityFile.value| > 0 && r.identityFile.value[0] == "~"
  }

  ghost predicate TunnelHas(r: TunnelRecord, fault: TunnelFault, hosts: seq<SshHost>, groups: seq<TunnelGroup>,
                            isIp: string -> bool)
  {
    match fault
    case JumpChainTooLong => |r.jumpChain| > 16
    case RemoteHalfSet => r.remoteHost.Some? != r.remotePort.Some?
    case Rejected(reason) =>
      exists t :: TunnelRead(t, r) && !Startable(t, hosts, groups, isIp) && Complains(reason, t, hosts, groups, isIp)
  }

  /** The complaint about a document is true of it. */
  ghost predicate Deserved(e: ConfigError, doc: ConfigDocument, m: Machine) {
    match e
    case UnsupportedVersion(version) => version == doc.schemaVersion != 1
    case TooManyEntries(HostEntry) => |doc.hosts| > 512
    case TooManyEntries(GroupEntry) => |doc.groups| > 128
    case TooManyEntries(TunnelEntry) => |doc.tunnels| > 1024
    case DuplicateId(HostEntry, id) => Repeats(doc.hosts, HOST_ID, id)
    case DuplicateId(GroupEntry, id) => Repeats(doc.groups, GROUP_ID, id)
    case DuplicateId(TunnelEntry, id) => Repeats(doc.tunnels, TUNNEL_ID, id)
    case BadHost(id, fault) =>
      exists i :: 0 <= i < |doc.hosts| && doc.hosts[i].id == id && HostHas(doc.hosts[i], fault, m.home)
    case BadTunnel(id, fault) =>
      HostsOf(doc, m).Ok? && GroupsOf(doc).Ok?
      && exists i :: 0 <= i < |doc.tunnels| && doc.tunnels[i].id == id
                     && TunnelHas(doc.tunnels[i], fault, HostsOf(doc, m).value, GroupsOf(doc).value, m.isIp)
    case DurationTooLarge => false
  }

  /** Every refusal of a document names something that is wrong with it, and another version is noticed first. */
  lemma ErrorsAreTrue(doc: ConfigDocument, m: Machine)
    requires DomainOf(doc, m).Err?
    ensures Deserved(DomainOf(doc, m).error, doc, m)
    ensures doc.schemaVersion != 1 <==> DomainOf(doc, m).error.UnsupportedVersion?
  {
    if CountError(doc).None? {
      if HostsOf(doc, m).Err? {
        HostErrorIsTrue(doc, m);
      } else if GroupsOf(doc).Err? {
        ListErrorIsTrue(doc.groups, GroupEntry, GROUP_ID, GroupReader());
      } else {
        TunnelErrorIsTrue(doc, m);
      }
    }
  }

  lemma HostErrorIsTrue(doc: ConfigDocument, m: Machine)
    requires HostsOf(doc, m).Err?
    ensures Deserved(HostsOf(doc, m).error, doc, m) && !HostsOf(doc, m).error.UnsupportedVersion?
  {
    var e := HostsOf(doc, m).error;
    ListErrorIsTrue(doc.hosts, HostEntry, HOST_ID, HostReader(m.home));
    if Refuses(doc.hosts, HostReader(m.home), e) {
      var i :| 0 <= i < |doc.hosts| && HostReader(m.home)(doc.hosts[i]) == Err(e);
      assert doc.hosts[i].id == e.id && HostHas(doc.hosts[i], e.hostFault, m.home);
    }
  }

  lemma TunnelErrorIsTrue(doc: ConfigDocument, m: Machine)
    requires HostsOf(doc, m).Ok? && GroupsOf(doc).Ok?
    requires TunnelsOf(doc, HostsOf(doc, m).value, GroupsOf(doc).value, m).Err?
    ensures var e := TunnelsOf(doc, HostsOf(doc, m).value, GroupsOf(doc).value, m).error;
            Deserved(e, doc, m) && !e.UnsupportedVersion?
  {
    var hosts, groups := HostsOf(doc, m).value, GroupsOf(doc).value;
    var reader := TunnelReader(hosts, groups, m.isIp);
    var e := TunnelsOf(doc, hosts, groups, m).error;
    ListErrorIsTrue(doc.tunnels, TunnelEntry, TUNNEL_ID, reader);
    if Refuses(doc.tunnels, reader, e) {
      var i :| 0 <= i < |doc.tunnels| && reader(doc.tunnels[i]) == Err(e);
      RejectedTunnel(doc.tunnels[i], e, hosts, groups, m.isIp);
      assert doc.tunnels[i].id == e.id && TunnelHas(doc.tunnels[i], e.tunnelFault, hosts, groups, m.isIp);
    }
  }

  lemma RejectedTunnel(r: TunnelRecord, e: ConfigError, hosts: seq<SshHost>, groups: seq<TunnelGroup>,
                       isIp: string -> bool)
    requires CheckedTunnel(r, hosts, groups, isIp) == Err(e)
    ensures e.BadTunnel? && e.id == r.id && TunnelHas(r, e.tunnelFault, hosts, groups, isIp)
  {
    if TunnelOf(r).Ok? {
      var t := TunnelOf(r).value;
      ValidateAcceptsExactly(t, hosts, groups, isIp);
      ComplaintIsTrue(t, hosts, groups, isIp);
      assert TunnelRead(t, r);
    }
  }

  // ----- saving one more host -----

  /** The domain is written down and the document is accepted again, which saving demands. */
  ghost predicate Saves(d: DomainConfig, m: Machine) {
    DocumentOf(d).Ok? && DomainOf(DocumentOf(d).value, m).Ok?
  }

  lemma CollectOneMore<D, R>(items: seq<D>, item: D, back: D -> Result<R, ConfigError>)
    requires CollectAll(items, back).Ok?
    ensures CollectAll(items + [item], back) ==
            match back(item) case Err(e) => Err(e) case Ok(r) => Ok(CollectAll(items, back).value + [r])
  {
    assert (items + [item])[..|items|] == items;
  }

  lemma ConvertOneMore<R, D>(records: seq<R>, record: R, kind: Kind, id: R -> string,
                             convert: R -> Result<D, ConfigError>)
    requires ConvertAll(records, kind, id, convert).Ok?
    ensures var more := ConvertAll(records + [record], kind, id, convert);
            && (more.Ok? <==> !Seen(records, id, id(record)) && convert(record).Ok?)
            && (more.Ok? ==> more.value == ConvertAll(records, kind, id, convert).value + [convert(record).value])
  {
    assert (records + [record])[..|records|] == records;
  }

  lemma WritingKeepsIds(hosts: seq<SshHost>, id: string)
    requires CollectAll(hosts, HostWriter()).Ok?
    ensures Seen(CollectAll(hosts, HostWriter()).value, HOST_ID, id) <==> id in HostIds(hosts)
  {
    var records := CollectAll(hosts, HostWriter()).value;
    CollectsExactly(hosts, HostWriter());
    forall i | 0 <= i < |hosts| ensures HOST_ID(records[i]) == hosts[i].id {
      assert HostWriter()(hosts[i]) == Ok(records[i]);
    }
    if id in HostIds(hosts) {
      var i :| 0 <= i < |hosts| && HostIds(hosts)[i] == id;
      assert HOST_ID(records[i]) == id;
    }
    if Seen(records, HOST_ID, id) {
      var i :| 0 <= i < |records| && HOST_ID(records[i]) == id;
      assert HostIds(hosts)[i] == id;
    }
  }

  lemma ReadingKeepsIds(doc: ConfigDocument, m: Machine, id: string)
    requires HostsOf(doc, m).Ok?
    ensures id in HostIds(HostsOf(doc, m).value) ==> Seen(doc.hosts, HOST_ID, id)
  {
    var hosts := HostsOf(doc, m).value;
    ConvertsExactly(doc.hosts, HostEntry, HOST_ID, HostReader(m.home));
    if id in HostIds(hosts) {
      var i :| 0 <= i < |hosts| && HostIds(hosts)[i] == id;
      assert HostReader(m.home)(doc.hosts[i]) == Ok(hosts[i]);
      assert HOST_ID(doc.hosts[i]) == id;
    }
  }

  /** One more host under a new id disturbs no tunnel. */
  lemma TunnelToleratesHost(r: TunnelRecord, hosts: seq<SshHost>, h: SshHost, groups: seq<TunnelGroup>,
                            isIp: string -> bool)
    requires CheckedTunnel(r, hosts, groups, isIp).Ok? && h.id !in HostIds(hosts)
    ensures CheckedTunnel(r, hosts + [h], groups, isIp).Ok?
  {
    var t := TunnelOf(r).value;
    ValidateAcceptsExactly(t, hosts, groups, isIp);
    ValidateAcceptsExactly(t, hosts + [h], groups, isIp);
    assert HostIds(hosts + [h]) == HostIds(hosts) + [h.id];
    forall hop | hop in t.jumpChain ensures Unique(HostIds(hosts + [h]), hop) {
      assert Unique(HostIds(hosts), hop) && hop in multiset(HostIds(hosts));
    }
  }

  lemma TunnelsTolerateHost(doc: ConfigDocument, hosts: seq<SshHost>, h: SshHost, groups: seq<TunnelGroup>, m: Machine)
    requires TunnelsOf(doc, hosts, groups, m).Ok? && h.id !in HostIds(hosts)
    ensures TunnelsOf(doc, hosts + [h], groups, m).Ok?
  {
    var reader, reader' := TunnelReader(hosts, groups, m.isIp), TunnelReader(hosts + [h], groups, m.isIp);
    ConvertsExactly(doc.tunnels, TunnelEntry, TUNNEL_ID, reader);
    ConvertsExactly(doc.tunnels, TunnelEntry, TUNNEL_ID, reader');
    forall i | 0 <= i < |doc.tunnels| ensures reader'(doc.tunnels[i]).Ok? {
      assert reader(doc.tunnels[i]).Ok?;
      TunnelToleratesHost(doc.tunnels[i], hosts, h, groups, m.isIp);
    }
  }

  lemma HostsWithOneMore(doc: ConfigDocument, r: HostRecord, m: Machine)
    requires HostsOf(doc, m).Ok?
    ensures var doc' := doc.(hosts := doc.hosts + [r]);
            && (HostsOf(doc', m).Ok? <==> !Seen(doc.hosts, HOST_ID, r.id) && HostOf(r, m.home).Ok?)
            && (HostsOf(doc', m).Ok? ==> HostsOf(doc', m).value == HostsOf(doc, m).value + [HostOf(r, m.home).value])
  {
    ConvertOneMore(doc.hosts, r, HostEntry, HOST_ID, HostReader(m.home));
  }

  lemma DocumentWithOneMore(doc: ConfigDocument, r: HostRecord, m: Machine)
    requires DomainOf(doc, m).Ok?
    ensures DomainOf(doc.(hosts := doc.hosts + [r]), m).Ok? <==>
      |doc.hosts| < MAX_HOSTS && !Seen(doc.hosts, HOST_ID, r.id) && HostOf(r, m.home).Ok?
  {
    HostsWithOneMore(doc, r, m);
    if HostOf(r, m.home).Ok? && !Seen(doc.hosts, HOST_ID, r.id) {
      ReadingKeepsIds(doc, m, r.id);
      TunnelsTolerateHost(doc, HostsOf(doc, m).value, HostOf(r, m.home).value, GroupsOf(doc).value, m);
    }
  }

  /** With one more host a configuration still saves exactly when there is room, the id is new and the host does. */
  lemma AddedHostIsSavedExactlyWhen(d: DomainConfig, h: SshHost, m: Machine)
    requires Saves(d, m)
    ensures Saves(d.(hosts := d.hosts + [h]), m) <==>
      && |d.hosts| < MAX_HOSTS && h.id !in HostIds(d.hosts)
      && HostRecordOf(h).Ok? && HostOf(HostRecordOf(h).value, m.home).Ok?
  {
    CollectOneMore(d.hosts, h, HostWriter());
    CollectsExactly(d.hosts, HostWriter());
    if HostRecordOf(h).Ok? {
      WritingKeepsIds(d.hosts, h.id);
      DocumentWithOneMore(DocumentOf(d).value, HostRecordOf(h).value, m);
    }
  }
}
