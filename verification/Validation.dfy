/** The checks made before a tunnel may start, and what passing them means. */
module Validation {
  import opened Wrappers
  import opened Domain

  datatype ValidationError =
    | EmptyId
    | EmptyName
    | EmptyJumpChain
    | RepeatedHop(hop: string)
    | UnknownHost(hop: string)
    | AmbiguousHost(hop: string)
    | UnknownGroup(group: string)
    | AmbiguousGroup(group: string)
    | InvalidBindAddress
    | InvalidLocalEndpoint
    | InvalidRemoteEndpoint
    | UnexpectedRemoteEndpoint
    | InvalidReconnectPolicy

  const HOST_BYTES: nat := 255

  function HostIds(hosts: seq<SshHost>): seq<string> {
    seq(|hosts|, i requires 0 <= i < |hosts| => hosts[i].id)
  }

  function GroupIds(groups: seq<TunnelGroup>): seq<string> {
    seq(|groups|, i requires 0 <= i < |groups| => groups[i].id)
  }

  /** How often `id` occurs: the source filters the list and counts up to two. */
  function Matches(ids: seq<string>, id: string): nat {
    if |ids| == 0 then 0
    else Matches(ids[..|ids| - 1], id) + if ids[|ids| - 1] == id then 1 else 0
  }

  /** The first complaint about chain[index..], walking the chain in order. */
  function ChainError(chain: seq<string>, index: nat, hosts: seq<SshHost>): Option<ValidationError>
    requires index <= |chain|
    decreases |chain| - index
  {
    if index == |chain| then None
    else if chain[index] in chain[..index] then Some(RepeatedHop(chain[index]))
    else match Matches(HostIds(hosts), chain[index])
      case 0 => Some(UnknownHost(chain[index]))
      case 1 => ChainError(chain, index + 1, hosts)
      case _ => Some(AmbiguousHost(chain[index]))
  }

  function GroupError(group: Option<string>, groups: seq<TunnelGroup>): Option<ValidationError> {
    match group
    case None => None
    case Some(id) =>
      match Matches(GroupIds(groups), id)
      case 0 => Some(UnknownGroup(id))
      case 1 => None
      case _ => Some(AmbiguousGroup(id))
  }

  function RemoteCheck(t: TunnelConfig, isIp: string -> bool): Result<(), ValidationError> {
    match (t.mode, t.remote)
    case (Dynamic, None) => Ok(())
    case (Dynamic, Some(_)) => Err(UnexpectedRemoteEndpoint)
    case (_, Some(remote)) =>
      if !Blank(remote.host) && ByteLength(remote.host) <= HOST_BYTES && (remote.port != 0 || t.mode.Remote?) then
        if t.mode.Remote? && !isIp(remote.host) then Err(InvalidBindAddress) else Ok(())
      else Err(InvalidRemoteEndpoint)
    case (_, None) => Err(InvalidRemoteEndpoint)
  }

  function Validate(t: TunnelConfig, hosts: seq<SshHost>, groups: seq<TunnelGroup>, isIp: string -> bool)
    : Result<(), ValidationError>
  {
    if Blank(t.id) then Err(EmptyId)
    else if Blank(t.name) then Err(EmptyName)
    else if t.jumpChain == [] then Err(EmptyJumpChain)
    else
      var chain := ChainError(t.jumpChain, 0, hosts);
      if chain.Some? then Err(chain.value)
      else
        var group := GroupError(t.groupId, groups);
        if group.Some? then Err(group.value)
        else if t.reconnect.baseDelay == 0 || t.reconnect.maxDelay < t.reconnect.baseDelay
                || t.reconnect.resetAfterHealthy == 0 || t.reconnect.jitterPercent > 100 then
          Err(InvalidReconnectPolicy)
        else if Blank(t.local.host) || ByteLength(t.local.host) > HOST_BYTES || t.local.port == 0 then
          Err(InvalidLocalEndpoint)
        else if !t.mode.Remote? && !isIp(t.local.host) then Err(InvalidBindAddress)
        else RemoteCheck(t, isIp)
  }

  // ----- what the checks establish -----

  /** Exactly one entry carries this id. */
  ghost predicate Unique(ids: seq<string>, id: string) {
    multiset(ids)[id] == 1
  }

  ghost predicate UsablePolicy(p: RetryPolicy) {
    0 < p.baseDelay <= p.maxDelay && 0 < p.resetAfterHealthy && p.jitterPercent <= 100
  }

  ghost predicate UsableName(host: string) {
    !Blank(host) && ByteLength(host) <= 255
  }

  /** A tunnel that may start. */
  ghost predicate Startable(t: TunnelConfig, hosts: seq<SshHost>, groups: seq<TunnelGroup>, isIp: string -> bool) {
    && !Blank(t.id) && !Blank(t.name)
    && t.jumpChain != []
    && (forall i, j | 0 <= i < j < |t.jumpChain| :: t.jumpChain[i] != t.jumpChain[j])
    && (forall hop | hop in t.jumpChain :: Unique(HostIds(hosts), hop))
    && (t.groupId.Some? ==> Unique(GroupIds(groups), t.groupId.value))
    && UsablePolicy(t.reconnect)
    && UsableName(t.local.host) && t.local.port != 0
    && (t.mode.Dynamic? <==> t.remote.None?)
    && (t.remote.Some? ==> UsableName(t.remote.value.host))
    && (t.mode.Local? ==> isIp(t.local.host) && t.remote.value.port != 0)
    && (t.mode.Dynamic? ==> isIp(t.local.host))
    && (t.mode.Remote? ==> isIp(t.remote.value.host))
  }

  lemma {:induction false} MatchesCounts(ids: seq<string>, id: string)
    ensures Matches(ids, id) == multiset(ids)[id]
  {
    if |ids| > 0 {
      MatchesCounts(ids[..|ids| - 1], id);
      assert ids == ids[..|ids| - 1] + [ids[|ids| - 1]];
    }
  }

  lemma {:induction false} ChainErrorMeans(chain: seq<string>, index: nat, hosts: seq<SshHost>)
    requires index <= |chain|
    ensures ChainError(chain, index, hosts).None? <==>
              && (forall i, j | 0 <= i < j < |chain| && index <= j :: chain[i] != chain[j])
              && (forall i | index <= i < |chain| :: Unique(HostIds(hosts), chain[i]))
    decreases |chain| - index
  {
    if index < |chain| {
      MatchesCounts(HostIds(hosts), chain[index]);
      ChainErrorMeans(chain, index + 1, hosts);
      if chain[index] in chain[..index] {
        var i :| 0 <= i < index && chain[i] == chain[index];
      }
    }
  }

  /** Validation accepts exactly the startable tunnels. */
  lemma ValidateAcceptsExactly(t: TunnelConfig, hosts: seq<SshHost>, groups: seq<TunnelGroup>, isIp: string -> bool)
    ensures Validate(t, hosts, groups, isIp).Ok? <==> Startable(t, hosts, groups, isIp)
  {
    ChainErrorMeans(t.jumpChain, 0, hosts);
    if t.groupId.Some? {
      MatchesCounts(GroupIds(groups), t.groupId.value);
    }
    assert (forall i | 0 <= i < |t.jumpChain| :: Unique(HostIds(hosts), t.jumpChain[i]))
      <==> (forall hop | hop in t.jumpChain :: Unique(HostIds(hosts), hop));
  }

  /** Each complaint about the chain names a hop of it that really is repeated, missing or ambiguous. */
  lemma {:induction false} ChainErrorIsTrue(chain: seq<string>, index: nat, hosts: seq<SshHost>)
    requires index <= |chain| && ChainError(chain, index, hosts).Some?
    ensures match ChainError(chain, index, hosts).value
            case RepeatedHop(h) => exists i, j :: 0 <= i < j < |chain| && chain[i] == h == chain[j]
            case UnknownHost(h) => h in chain && h !in HostIds(hosts)
            case AmbiguousHost(h) => h in chain && multiset(HostIds(hosts))[h] >= 2
            case _ => false
    decreases |chain| - index
  {
    var hop := chain[index];
    MatchesCounts(HostIds(hosts), hop);
    if hop in chain[..index] {
      var i :| 0 <= i < index && chain[i] == hop;
      assert chain[i] == hop == chain[index];
    } else if Matches(HostIds(hosts), hop) == 1 {
      ChainErrorIsTrue(chain, index + 1, hosts);
    }
  }

  /** The complaint is true of the tunnel. */
  ghost predicate Complains(e: ValidationError, t: TunnelConfig, hosts: seq<SshHost>, groups: seq<TunnelGroup>,
                            isIp: string -> bool)
  {
    match e
    case EmptyId => Blank(t.id)
    case EmptyName => Blank(t.name)
    case EmptyJumpChain => t.jumpChain == []
    case RepeatedHop(h) => exists i, j :: 0 <= i < j < |t.jumpChain| && t.jumpChain[i] == h == t.jumpChain[j]
    case UnknownHost(h) => h in t.jumpChain && h !in HostIds(hosts)
    case AmbiguousHost(h) => h in t.jumpChain && multiset(HostIds(hosts))[h] >= 2
    case UnknownGroup(g) => t.groupId == Some(g) && g !in GroupIds(groups)
    case AmbiguousGroup(g) => t.groupId == Some(g) && multiset(GroupIds(groups))[g] >= 2
    case InvalidReconnectPolicy => !UsablePolicy(t.reconnect)
    case InvalidLocalEndpoint => !UsableName(t.local.host) || t.local.port == 0
    case InvalidBindAddress =>
      if t.mode.Remote? then t.remote.Some? && !isIp(t.remote.value.host) else !isIp(t.local.host)
    case InvalidRemoteEndpoint =>
      !t.mode.Dynamic?
      && (t.remote.None? || !UsableName(t.remote.value.host) || (t.mode.Local? && t.remote.value.port == 0))
    case UnexpectedRemoteEndpoint => t.mode.Dynamic? && t.remote.Some?
  }

  /** Whatever validation complains about is so. */
  lemma ComplaintIsTrue(t: TunnelConfig, hosts: seq<SshHost>, groups: seq<TunnelGroup>, isIp: string -> bool)
    requires Validate(t, hosts, groups, isIp).Err?
    ensures Complains(Validate(t, hosts, groups, isIp).error, t, hosts, groups, isIp)
  {
    var chain := ChainError(t.jumpChain, 0, hosts);
    if chain.Some? {
      ChainErrorIsTrue(t.jumpChain, 0, hosts);
    }
    if t.groupId.Some? {
      MatchesCounts(GroupIds(groups), t.groupId.value);
    }
  }

  // ----- resolving the chain -----

  /** The hosts of a chain, or None if one is missing. */
  function Resolve(chain: seq<string>, hosts: seq<SshHost>): Option<seq<SshHost>> {
    if |chain| == 0 then Some([])
    else
      var init := Resolve(chain[..|chain| - 1], hosts);
      var last := FindHost(hosts, chain[|chain| - 1]);
      if init.None? || last.None? then None else Some(init.value + [last.value])
  }

  lemma {:induction false} FindHostFinds(hosts: seq<SshHost>, id: string)
    ensures FindHost(hosts, id).Some? <==> id in HostIds(hosts)
    ensures FindHost(hosts, id).Some? ==> FindHost(hosts, id).value in hosts && FindHost(hosts, id).value.id == id
  {
    if |hosts| > 0 {
      FindHostFinds(hosts[1..], id);
      assert HostIds(hosts) == [hosts[0].id] + HostIds(hosts[1..]);
    }
  }

  lemma {:induction false} ResolveNames(chain: seq<string>, hosts: seq<SshHost>)
    requires forall hop | hop in chain :: FindHost(hosts, hop).Some?
    ensures var r := Resolve(chain, hosts);
            && r.Some? && |r.value| == |chain|
            && forall k | 0 <= k < |chain| :: FindHost(hosts, chain[k]) == Some(r.value[k])
  {
    if |chain| > 0 {
      var init := chain[..|chain| - 1];
      assert forall hop | hop in init :: hop in chain;
      ResolveNames(init, hosts);
      assert chain[|chain| - 1] in chain;
    }
  }

  /** A validated tunnel's whole jump chain resolves: starting it never meets an unknown host. */
  lemma ValidatedChainResolves(t: TunnelConfig, hosts: seq<SshHost>, groups: seq<TunnelGroup>, isIp: string -> bool)
    requires Validate(t, hosts, groups, isIp).Ok?
    ensures var r := Resolve(t.jumpChain, hosts);
            && r.Some? && |r.value| == |t.jumpChain| > 0
            && forall k | 0 <= k < |t.jumpChain| ::
                 r.value[k].id == t.jumpChain[k] && FindHost(hosts, t.jumpChain[k]) == Some(r.value[k])
  {
    ValidateAcceptsExactly(t, hosts, groups, isIp);
    forall hop | hop in t.jumpChain
      ensures FindHost(hosts, hop).Some? && FindHost(hosts, hop).value.id == hop
    {
      assert hop in multiset(HostIds(hosts));
      FindHostFinds(hosts, hop);
    }
    ResolveNames(t.jumpChain, hosts);
    assert forall k | 0 <= k < |t.jumpChain| :: t.jumpChain[k] in t.jumpChain;
  }
}
