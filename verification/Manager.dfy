/**
  The tunnel manager: the single writer of the desired state.  It owns every supervisor task; the
  tasks themselves, the operating system and the configuration files answer from outside.
*/
module Manager {
  import opened Wrappers
  import opened Domain
  import opened SupervisorTypes
  import opened TaskLedger
  import opened Validation
  import L = LifecycleTypes
  import opened ListenerRuntimeModule

  datatype ManagedConfig = ManagedConfig(hosts: seq<SshHost>, groups: seq<TunnelGroup>, tunnels: seq<TunnelConfig>)

  datatype CoreCommand =
    | StartAll
    | StopAll
    | StartGroup(group: string)
    | StopGroup(group: string)
    | StartTunnel(id: string)
    | StopTunnel(id: string)
    | RestartTunnel(id: string)
    | RetryTunnel(id: string)
    | NetworkRecovered
    | SaveConfig(config: ManagedConfig, persisted: bool)

  /** One turn of the manager's select loop.  A tick reports published states and finished tasks. */
  datatype Input =
    | ShutdownRequested
    | CommandsClosed
    | Command(command: CoreCommand)
    | Tick(published: map<string, SupervisorState>, exited: map<string, string>)

  /** Platform text parsing, outside the model. */
  datatype Platform = Platform(isIp: string -> bool, parseAddr: (string, nat) -> Option<L.SocketAddr>)

  // ----- comparing configurations -----

  predicate SameTunnelRuntime(a: TunnelConfig, b: TunnelConfig) {
    a.mode == b.mode && a.jumpChain == b.jumpChain && a.local == b.local && a.remote == b.remote
    && a.reconnect == b.reconnect
  }

  predicate SameHostConnection(a: Option<SshHost>, b: Option<SshHost>) {
    match (a, b)
    case (Some(x), Some(y)) =>
      && x.hostname == y.hostname && x.port == y.port && x.username == y.username && x.auth == y.auth
      && x.hostKeyPolicy == y.hostKeyPolicy && x.connectTimeout == y.connectTimeout
      && x.keepaliveInterval == y.keepaliveInterval && x.keepaliveMax == y.keepaliveMax
    case (None, None) => true
    case _ => false
  }

  function TunnelMap(tunnels: seq<TunnelConfig>): (m: map<string, TunnelConfig>)
    ensures forall id | id in m :: m[id].id == id && m[id] in tunnels
  {
    if |tunnels| == 0 then map[]
    else
      var last := tunnels[|tunnels| - 1];
      TunnelMap(tunnels[..|tunnels| - 1])[last.id := last]
  }

  function AutoStartIds(tunnels: seq<TunnelConfig>): (ids: seq<string>)
    ensures forall id :: id in ids <==> exists t :: t in tunnels && t.autoStart && t.id == id
  {
    if |tunnels| == 0 then []
    else
      var last := tunnels[|tunnels| - 1];
      AutoStartIds(tunnels[..|tunnels| - 1]) + if last.autoStart then [last.id] else []
  }

  /** Must a running tunnel be stopped when `tunnels`, `hosts` give way to `newTunnels`, `newHosts`? */
  predicate NeedsRestart(id: string, tunnels: map<string, TunnelConfig>, hosts: seq<SshHost>,
                         newTunnels: map<string, TunnelConfig>, newHosts: seq<SshHost>)
  {
    || id !in tunnels
    || id !in newTunnels
    || !SameTunnelRuntime(tunnels[id], newTunnels[id])
    || exists k :: 0 <= k < |tunnels[id].jumpChain|
                   && var hop := tunnels[id].jumpChain[k];
                      !SameHostConnection(FindHost(hosts, hop), FindHost(newHosts, hop))
  }

  /** The running tunnels that have to be stopped. */
  function Outdated(running: set<string>, tunnels: map<string, TunnelConfig>, hosts: seq<SshHost>,
                    newTunnels: map<string, TunnelConfig>, newHosts: seq<SshHost>): set<string>
  {
    set id | id in running && NeedsRestart(id, tunnels, hosts, newTunnels, newHosts)
  }

  /** The plan of the hosts a closure captured. */
  function CapturedPlan(t: TunnelConfig, captured: seq<SshHost>): ConnectionPlan {
    ConnectionPlan(t.mode, t.local, t.remote, t.reconnect, t.jumpChain, CapturedHops(captured))
  }

  function CapturedHops(captured: seq<SshHost>): seq<Option<HostConnection>> {
    seq(|captured|, i requires 0 <= i < |captured| => Some(ConnectionOf(captured[i])))
  }

  lemma SameHops(chain: seq<string>, hosts: seq<SshHost>, newHosts: seq<SshHost>)
    ensures Hops(chain, hosts) == Hops(chain, newHosts) <==>
      forall k | 0 <= k < |chain| :: SameHostConnection(FindHost(hosts, chain[k]), FindHost(newHosts, chain[k]))
  {
    var a, b := Hops(chain, hosts), Hops(chain, newHosts);
    forall k | 0 <= k < |chain|
      ensures a[k] == b[k] <==> SameHostConnection(FindHost(hosts, chain[k]), FindHost(newHosts, chain[k]))
    {
    }
  }

  /** A running tunnel is restarted exactly when it is gone or its connection plan has changed. */
  lemma RestartExactlyWhenPlanChanges(id: string, tunnels: map<string, TunnelConfig>, hosts: seq<SshHost>,
                                      newTunnels: map<string, TunnelConfig>, newHosts: seq<SshHost>)
    requires id in tunnels
    ensures NeedsRestart(id, tunnels, hosts, newTunnels, newHosts) <==>
      id !in newTunnels || PlanOf(tunnels[id], hosts) != PlanOf(newTunnels[id], newHosts)
  {
    if id in newTunnels && SameTunnelRuntime(tunnels[id], newTunnels[id]) {
      SameHops(tunnels[id].jumpChain, hosts, newHosts);
    }
  }

  /** The running tasks, the views and the number of the next task. */
  datatype Fleet = Fleet(active: map<string, ActiveTunnel>, views: map<string, TunnelView>, next: nat)

  /** The configuration in force. */
  datatype Setup = Setup(hosts: seq<SshHost>, groups: seq<TunnelGroup>, tunnels: map<string, TunnelConfig>)

  /** The configured tunnels, those of them that may start, and those that then need no local port. */
  datatype Roster = Roster(known: set<string>, able: set<string>, sure: set<string>)

  ghost function RosterOf(s: Setup, isIp: string -> bool): Roster {
    Roster(s.tunnels.Keys,
           set id | id in s.tunnels && Startable(s.tunnels[id], s.hosts, s.groups, isIp),
           set id | id in s.tunnels && Startable(s.tunnels[id], s.hosts, s.groups, isIp) && s.tunnels[id].mode.Remote?)
  }

  /** What calling start on `ids` does. */
  ghost predicate Launched(ids: set<string>, r: Roster, f: Fleet, f': Fleet) {
    && f.next <= f'.next
    // running tasks are untouched, and every new one is for a requested tunnel that may start
    && (forall id | id in f.active :: id in f'.active && f'.active[id] == f.active[id])
    && (forall id | id in f'.active && id !in f.active ::
          && id in ids && id in r.able && f.next <= f'.active[id].task < f'.next
          && id in f'.views && f'.views[id].state == Connecting(1))
    && (forall id | id in ids && id in r.sure :: id in f'.active)
    // a requested tunnel that does not run says why
    && (forall id | id in ids && id in r.known && id !in f'.active :: id in f'.views && f'.views[id].state.Blocked?)
    && f'.views.Keys == f.views.Keys
    && (forall id | id in f.views && (id !in ids || id in f.active) :: f'.views[id] == f.views[id])
  }

  /** A task for `plan` runs for the tunnel now. */
  ghost predicate Spawned(id: string, plan: ConnectionPlan, f: Fleet, f': Fleet) {
    && f'.next == f.next + 1 && f'.active == f.active[id := ActiveTunnel(f.next, plan)]
    && id in f'.views && f'.views == f.views[id := TunnelView(Connecting(1), f'.views[id].localAddr)]
  }

  /** The tunnel's view says why it was not started. */
  ghost predicate TurnedAway(id: string, f: Fleet, f': Fleet) {
    && f'.next == f.next && f'.active == f.active
    && id in f'.views && f'.views == f.views[id := f'.views[id]]
    && f'.views[id].state.Blocked? && f'.views[id].localAddr.None?
  }

  lemma SpawnedIsLaunched(id: string, plan: ConnectionPlan, r: Roster, f: Fleet, f': Fleet)
    requires Spawned(id, plan, f, f') && id in f.views && id !in f.active && id in r.able
    ensures Launched({id}, r, f, f')
  {
  }

  lemma TurnedAwayIsLaunched(id: string, r: Roster, f: Fleet, f': Fleet)
    requires TurnedAway(id, f, f') && id in f.views && id !in f.active && id !in r.sure
    ensures Launched({id}, r, f, f')
  {
  }

  lemma LaunchedThen(ids: set<string>, id: string, r: Roster, f0: Fleet, f1: Fleet, f2: Fleet)
    requires Launched(ids, r, f0, f1) && Launched({id}, r, f1, f2)
    ensures Launched(ids + {id}, r, f0, f2)
  {
  }

  /** The tunnel runs a new task, or its view says why not; the other tunnels keep their tasks and views. */
  ghost predicate Restarted(id: string, r: Roster, f: Fleet, f': Fleet) {
    && f'.active - {id} == f.active - {id}
    && (id in f'.active ==> f'.active[id].task >= f.next && id in r.able)
    && (id in r.sure ==> id in f'.active)
    && (id in r.known && id !in f'.active ==> id in f'.views && f'.views[id].state.Blocked?)
    && f'.views.Keys == f.views.Keys
    && forall other | other in f.views && other != id :: f'.views[other] == f.views[other]
  }

  lemma StopThenStart(id: string, r: Roster, f0: Fleet, f1: Fleet, f2: Fleet)
    requires f1.active == f0.active - {id} && f1.next == f0.next
    requires f1.views == if id in f0.views then f0.views[id := STOPPED_VIEW] else f0.views
    requires Launched({id}, r, f1, f2)
    ensures Restarted(id, r, f0, f2)
  {
  }

  /** The views of `ids` become Stopped; the others stay. */
  ghost predicate Stilled(ids: set<string>, views: map<string, TunnelView>, views': map<string, TunnelView>) {
    && views'.Keys == views.Keys
    && forall id | id in views' :: views'[id] == if id in ids then STOPPED_VIEW else views[id]
  }

  /** The views of the running tunnels among `ids` take over what their tasks published. */
  ghost predicate Reported(ids: set<string>, published: map<string, SupervisorState>,
                           views: map<string, TunnelView>, views': map<string, TunnelView>)
  {
    && views'.Keys == views.Keys
    && forall id | id in views' ::
         views'[id] == if id in ids && id in published then views[id].(state := published[id]) else views[id]
  }

  lemma ReportedThen(ids: set<string>, id: string, published: map<string, SupervisorState>,
                     v0: map<string, TunnelView>, v1: map<string, TunnelView>)
    requires Reported(ids, published, v0, v1) && id !in ids && id in v1 && id in published
    ensures Reported(ids + {id}, published, v0, v1[id := v1[id].(state := published[id])])
  {
  }

  lemma WithoutThen(a: map<string, ActiveTunnel>, ids: set<string>, id: string)
    ensures a - ids - {id} == a - (ids + {id})
  {
  }

  function ExitedView(message: string): TunnelView { TunnelView(Blocked(TaskExited(message)), None) }

  /** The views of `ids` say that their tasks ended by themselves. */
  ghost predicate Reaped(ids: set<string>, exited: map<string, string>,
                         views: map<string, TunnelView>, views': map<string, TunnelView>)
  {
    && views'.Keys == views.Keys
    && forall id | id in views' :: views'[id] == if id in ids && id in exited then ExitedView(exited[id]) else views[id]
  }

  lemma NothingReaped(active: map<string, ActiveTunnel>, exited: map<string, string>, views: map<string, TunnelView>)
    ensures active - {} == active && Reaped({}, exited, views, views)
  {
  }

  lemma ReapedThen(ids: set<string>, id: string, exited: map<string, string>,
                   v0: map<string, TunnelView>, v1: map<string, TunnelView>)
    requires Reaped(ids, exited, v0, v1) && id in v1 && id in exited
    ensures Reaped(ids + {id}, exited, v0, v1[id := ExitedView(exited[id])])
  {
  }

  lemma StilledThen(ids: set<string>, id: string, v0: map<string, TunnelView>, v1: map<string, TunnelView>)
    requires Stilled(ids, v0, v1)
    ensures Stilled(ids + {id}, v0, if id in v1 then v1[id := STOPPED_VIEW] else v1)
  {
  }

  /**
    What a new configuration does.  Running tunnels that are not outdated keep the very same task and view;
    what runs afterwards for any other tunnel is a new task, and only for tunnels that ran or start by themselves.
  */
  ghost predicate Replaced(outdated: set<string>, tunnels': map<string, TunnelConfig>, r: Roster, f: Fleet, f': Fleet)
  {
    && f'.views.Keys == tunnels'.Keys
    && (forall id | id in f.active && id !in outdated && id in f.views ::
          id in f'.active && f'.active[id] == f.active[id] && id in f'.views && f'.views[id] == f.views[id])
    && (forall id | id in f'.active && (id !in f.active || id in outdated) ::
          f'.active[id].task >= f.next && id in r.able && id in tunnels' && (tunnels'[id].autoStart || id in f.active))
    && (forall id | id in tunnels' && (tunnels'[id].autoStart || id in f.active) ::
          id in f'.active || (id !in r.sure && f'.views[id].state.Blocked?))
    && (forall id | id in tunnels' && !tunnels'[id].autoStart && id !in f.active ::
          id !in f'.active && f'.views[id] == if id in f.views then f.views[id] else STOPPED_VIEW)
  }

  /** The outdated tasks are gone and the views are those of the new tunnels; nothing has been started yet. */
  ghost predicate Installed(outdated: set<string>, tunnels': map<string, TunnelConfig>, f: Fleet, f': Fleet) {
    && f.active.Keys <= f.views.Keys
    && f'.active == f.active - outdated && f'.active.Keys <= tunnels'.Keys == f'.views.Keys
    && f'.next == f.next
    && (forall id | id in f'.views && (id !in f.active || id !in outdated) ::
          f'.views[id] == if id in f.views then f.views[id] else STOPPED_VIEW)
  }

  /** Stopping the outdated, adopting the views and starting what should run amounts to `Replaced`. */
  lemma StopInstallStart(outdated: set<string>, toStart: set<string>, tunnels': map<string, TunnelConfig>,
                         r: Roster, f: Fleet, installed: Fleet, f': Fleet)
    requires r.known == tunnels'.Keys
    requires Installed(outdated, tunnels', f, installed)
    requires forall id :: id in toStart <==> id in tunnels' && (tunnels'[id].autoStart || id in f.active)
    requires Launched(toStart, r, installed, f')
    ensures Replaced(outdated, tunnels', r, f, f')
  {
  }

  // ----- what a turn does -----

  datatype Picture = Picture(setup: Setup, fleet: Fleet)

  function InGroup(tunnels: map<string, TunnelConfig>, group: string): set<string> {
    set id | id in tunnels && tunnels[id].groupId == Some(group)
  }

  ghost predicate DidOne(c: CoreCommand, r: Roster, f: Fleet, f': Fleet) {
    && (c.StartTunnel? ==> Launched({c.id}, r, f, f'))
    && (c.StopTunnel? ==> f' == f.(active := f'.active, views := f'.views) && f'.active == f.active - {c.id}
                          && Stilled({c.id}, f.views, f'.views))
    && (c.RestartTunnel? ==> Restarted(c.id, r, f, f'))
    && (c.RetryTunnel? ==> Launched({c.id}, r, f, f'))
  }

  ghost predicate DidMany(c: CoreCommand, s: Setup, r: Roster, f: Fleet, f': Fleet) {
    && (c.StartAll? ==> Launched(s.tunnels.Keys, r, f, f'))
    && (c.StopAll? ==> f' == f.(active := map[], views := f'.views) && Stilled(f.active.Keys, f.views, f'.views))
    && (c.StartGroup? ==>
          var ids := set id | id in s.tunnels && s.tunnels[id].groupId == Some(c.group);
          Launched(ids, r, f, f'))
    && (c.StopGroup? ==>
          var ids := set id | id in s.tunnels && s.tunnels[id].groupId == Some(c.group);
          f' == f.(active := f.active - ids, views := f'.views) && Stilled(ids, f.views, f'.views))
  }

  /** The effect of each command; the configuration changes only through a save that has been persisted. */
  ghost predicate Did(c: CoreCommand, isIp: string -> bool, p: Picture, p': Picture) {
    var f, f' := p.fleet, p'.fleet;
    && (c.StartTunnel? || c.StopTunnel? || c.RestartTunnel? || c.RetryTunnel? ==>
          p'.setup == p.setup && DidOne(c, RosterOf(p.setup, isIp), f, f'))
    && (c.StartAll? || c.StopAll? || c.StartGroup? || c.StopGroup? ==>
          p'.setup == p.setup && DidMany(c, p.setup, RosterOf(p.setup, isIp), f, f'))
    && (c.NetworkRecovered? || (c.SaveConfig? && !c.persisted) ==> p' == p)
    && (c.SaveConfig? && c.persisted ==>
          var s, s' := p.setup, p'.setup;
          && s' == Setup(c.config.hosts, c.config.groups, TunnelMap(c.config.tunnels))
          && Replaced(Outdated(f.active.Keys, s.tunnels, s.hosts, s'.tunnels, s'.hosts), s'.tunnels,
                      RosterOf(s', isIp), f, f'))
  }

  /** Running tunnels show what was published; those whose task has ended are gone and say so. */
  ghost predicate Ticked(published: map<string, SupervisorState>, exited: map<string, string>, f: Fleet, f': Fleet) {
    && f'.active == f.active - exited.Keys && f'.next == f.next && f'.views.Keys == f.views.Keys
    && forall id | id in f.views ::
         f'.views[id] == (if id !in f.active then f.views[id]
                          else if id in exited then TunnelView(Blocked(TaskExited(exited[id])), None)
                          else if id in published then f.views[id].(state := published[id])
                          else f.views[id])
  }

  predicate Ends(input: Input) { input.ShutdownRequested? || input.CommandsClosed? }

  ghost predicate Turned(input: Input, isIp: string -> bool, p: Picture, p': Picture) {
    match input
    case Command(command) => Did(command, isIp, p, p')
    case Tick(published, exited) => p'.setup == p.setup && Ticked(published, exited, p.fleet, p'.fleet)
    case _ => p' == p
  }

  class TunnelManager {
    const platform: Platform
    var hosts: seq<SshHost>
    var groups: seq<TunnelGroup>
    var tunnels: map<string, TunnelConfig>
    var autoStart: seq<string>
    var current: map<string, TunnelView>
    var snapshot: map<string, TunnelView>      // what observers see
    var active: map<string, ActiveTunnel>
    var nextTask: nat

    ghost var ops: seq<Op>
    ghost var ledger: Ledger

    ghost predicate ViewsOk()
      reads this
    {
      && Replay(ops) == Some(ledger)
      && ledger.shown == current
      && snapshot == current
    }

    ghost predicate TasksOk()
      reads this
    {
      && ledger.live == active
      && ledger.spawned == nextTask
      && (forall id | id in active :: id in ledger.armed)
    }

    /** The configuration of every running tunnel is current, and the three id sets agree. */
    ghost predicate ConfigOk()
      reads this
    {
      && current.Keys == tunnels.Keys
      && (forall id | id in active :: id in tunnels && active[id].plan == PlanOf(tunnels[id], hosts))
    }

    ghost predicate Valid()
      reads this
    {
      ViewsOk() && TasksOk() && ConfigOk()
    }

    ghost function Configured(): Setup
      reads this`hosts, this`groups, this`tunnels
    {
      Setup(hosts, groups, tunnels)
    }

    ghost function TheRoster(): Roster
      reads this`hosts, this`groups, this`tunnels
    {
      RosterOf(Configured(), platform.isIp)
    }

    ghost function Here(): Picture
      reads this
    {
      Picture(Configured(), Now())
    }

    ghost function Now(): Fleet
      reads this`active, this`current, this`nextTask
    {
      Fleet(active, current, nextTask)
    }

    constructor (platform: Platform, hosts: seq<SshHost>, groups: seq<TunnelGroup>, tunnels: seq<TunnelConfig>)
      ensures Valid() && active == map[] && nextTask == 0
      ensures this.hosts == hosts && this.groups == groups && this.tunnels == TunnelMap(tunnels)
      ensures forall id | id in current :: current[id] == TunnelView(Stopped, None)
      ensures forall id :: id in autoStart <==> exists t :: t in tunnels && t.autoStart && t.id == id
    {
      this.platform := platform;
      this.hosts := hosts;
      this.groups := groups;
      this.tunnels := TunnelMap(tunnels);
      autoStart := AutoStartIds(tunnels);
      current := map[];
      snapshot := map[];
      active := map[];
      nextTask := 0;
      ops := [];
      ledger := EMPTY;
      new;
      AdoptViews();
      snapshot := current;
    }

    // ----- bookkeeping -----

    ghost method Note(op: Op)
      requires Replay(ops) == Some(ledger) && Post(ledger, op).Some?
      modifies this`ops, this`ledger
      ensures ops == old(ops) + [op] && Post(old(ledger), op) == Some(ledger) && Replay(ops) == Some(ledger)
    {
      assert (ops + [op])[..|ops|] == ops;
      ledger := Post(ledger, op).value;
      ops := ops + [op];
    }

    /** Sets a view and publishes it; `op` is the ledger entry for it. */
    method SetState(id: string, state: SupervisorState, localAddr: Option<L.SocketAddr>, ghost op: Op)
      requires ViewsOk() && Post(ledger, op).Some?
      requires (op == Halt(id) && state.Stopped? && localAddr.None?) || op == Show(id, TunnelView(state, localAddr))
      modifies this`current, this`snapshot, this`ops, this`ledger
      ensures ViewsOk() && Post(old(ledger), op) == Some(ledger)
      ensures current == if id in old(current) then old(current)[id := TunnelView(state, localAddr)] else old(current)
    {
      Note(op);
      if id in current {
        current := current[id := TunnelView(state, localAddr)];
        snapshot := current;
      }
    }

    // ----- starting and stopping one tunnel -----

    method Start(id: string)
      requires Valid()
      modifies this`current, this`snapshot, this`active, this`nextTask, this`ops, this`ledger
      ensures Valid()
      ensures Launched({id}, TheRoster(), old(Now()), Now())
      // a running or unknown tunnel is left alone
      ensures id in old(active) || id !in tunnels ==> Now() == old(Now())
      // otherwise exactly one task is spawned for it, or its view says why not
      ensures id !in old(active) && id in tunnels && id in active ==>
        && MayStart(id) && Spawned(id, PlanOf(tunnels[id], hosts), old(Now()), Now())
        && (tunnels[id].mode.Remote? <==> current[id].localAddr.None?)
      ensures id !in old(active) && id in tunnels && id !in active ==>
        TurnedAway(id, old(Now()), Now()) && GoodReason(id, current[id].state.reason)
    {
      Note(StartCalled(id));
      if id in active || id !in tunnels {
        return;
      }
      ghost var before := Now();
      var plan := Prepare(id);
      match plan {
        case Err(reason) =>
          Block(id, reason);
          TurnedAwayIsLaunched(id, TheRoster(), before, Now());
        case Ok((captured, localAddr)) =>
          Launch(id, captured, localAddr);
          SpawnedIsLaunched(id, captured, TheRoster(), before, Now());
      }
    }

    ghost predicate MayStart(id: string)
      reads this
      requires id in tunnels
    {
      Startable(tunnels[id], hosts, groups, platform.isIp)
    }

    /** Why the tunnel cannot be started: it is not valid, or else has no port it could listen on. */
    ghost predicate GoodReason(id: string, reason: Reason)
      reads this
      requires id in tunnels
    {
      var t := tunnels[id];
      match reason
      case InvalidTunnel(error) => !MayStart(id) && Complains(error, t, hosts, groups, platform.isIp)
      case BadListenerAddress =>
        MayStart(id) && !t.mode.Remote? && platform.parseAddr(t.local.host, t.local.port).None?
      case ListenerFailed => MayStart(id) && !t.mode.Remote? && platform.parseAddr(t.local.host, t.local.port).Some?
      case _ => false
    }

    /** Validation, resolving the jump chain and binding the listener, in that order. */
    method Prepare(id: string) returns (r: Result<(ConnectionPlan, Option<L.SocketAddr>), Reason>)
      requires id in tunnels
      ensures r.Err? ==> GoodReason(id, r.error)
      ensures r.Ok? ==>
        && MayStart(id)
        && r.value.0 == PlanOf(tunnels[id], hosts)
        && (tunnels[id].mode.Remote? <==> r.value.1.None?)
    {
      var tunnel := tunnels[id];
      ValidateAcceptsExactly(tunnel, hosts, groups, platform.isIp);
      var verdict := Validate(tunnel, hosts, groups, platform.isIp);
      if verdict.Err? {
        ComplaintIsTrue(tunnel, hosts, groups, platform.isIp);
        return Err(InvalidTunnel(verdict.error));
      }
      ValidatedChainResolves(tunnel, hosts, groups, platform.isIp);
      var captured := Resolve(tunnel.jumpChain, hosts).value;   // never "Unknown jump host"
      var plan := CapturedPlan(tunnel, captured);
      assert plan.hops == Hops(tunnel.jumpChain, hosts);
      if tunnel.mode.Remote? {
        return Ok((plan, None));
      }
      var address := OpenListener(tunnel.local);
      return if address.Err? then Err(address.error) else Ok((plan, Some(address.value)));
    }

    method OpenListener(local: Endpoint) returns (r: Result<L.SocketAddr, Reason>)
      ensures r.Err? ==>
        r.error == if platform.parseAddr(local.host, local.port).None? then BadListenerAddress else ListenerFailed
    {
      var address := platform.parseAddr(local.host, local.port);
      if address.None? {
        return Err(BadListenerAddress);
      }
      var os: BindOutcome := *;
      var listener := new ListenerRuntime();
      var bound := listener.StartListener(address.value, os, 0);
      return if bound.Ok? then Ok(listener.listener.value) else Err(ListenerFailed);
    }

    /** Spawns the supervisor task of a stopped tunnel. */
    method Launch(id: string, captured: ConnectionPlan, localAddr: Option<L.SocketAddr>)
      requires Valid() && id in tunnels && id !in active && id in ledger.armed
      requires captured == PlanOf(tunnels[id], hosts)
      modifies this`current, this`snapshot, this`ops, this`ledger, this`active, this`nextTask
      ensures Valid() && Spawned(id, captured, old(Now()), Now()) && current[id].localAddr == localAddr
    {
      var handle := Spawn(id, captured);
      SetState(id, Connecting(1), localAddr, Show(id, TunnelView(Connecting(1), localAddr)));
      active := active[id := handle];
    }

    method Spawn(id: string, captured: ConnectionPlan) returns (handle: ActiveTunnel)
      requires Replay(ops) == Some(ledger)
      requires id !in ledger.live && id in ledger.armed && ledger.spawned == nextTask
      modifies this`nextTask, this`ops, this`ledger
      ensures handle == ActiveTunnel(old(nextTask), captured) && nextTask == old(nextTask) + 1
      ensures Replay(ops) == Some(ledger)
      ensures ledger == old(ledger).(live := old(ledger).live[id := handle], spawned := nextTask)
    {
      handle := ActiveTunnel(nextTask, captured);
      nextTask := nextTask + 1;
      Note(Op.Spawn(id, handle));
    }

    method Block(id: string, reason: Reason)
      requires Valid() && id in tunnels && id in ledger.armed
      modifies this`current, this`snapshot, this`ops, this`ledger
      ensures Valid() && TurnedAway(id, old(Now()), Now()) && current[id].state == Blocked(reason)
    {
      SetState(id, Blocked(reason), None, Show(id, TunnelView(Blocked(reason), None)));
    }

    /** Cancels and joins the tunnel's task, if any; its view is Stopped afterwards. */
    method Stop(id: string)
      requires Valid()
      modifies this`current, this`snapshot, this`active, this`ops, this`ledger
      ensures Valid()
      ensures active == old(active) - {id}
      ensures current == if id in old(current) then old(current)[id := STOPPED_VIEW] else old(current)
    {
      if id in active {
        CancelAndJoin(id);
      }
      SetState(id, Stopped, None, Halt(id));
    }

    method CancelAndJoin(id: string)
      requires TasksOk() && Replay(ops) == Some(ledger) && id in active
      modifies this`active, this`ops, this`ledger
      ensures TasksOk() && Replay(ops) == Some(ledger) && active == old(active) - {id}
      ensures ledger.shown == old(ledger).shown && ledger.armed == old(ledger).armed
    {
      Note(Cancel(id, active[id]));
      Note(Join(id, active[id], false));
      active := active - {id};
    }

    // ----- several tunnels, in the arbitrary order of a hash map -----

    /** Stops one more of several tunnels, `done` having been stopped since `before`. */
    method StopNext(id: string, ghost done: set<string>, ghost before: Fleet)
      requires Valid() && active == before.active - done && Stilled(done, before.views, current)
      modifies this`current, this`snapshot, this`active, this`ops, this`ledger
      ensures Valid() && active == before.active - (done + {id}) && Stilled(done + {id}, before.views, current)
    {
      StilledThen(done, id, before.views, current);
      WithoutThen(before.active, done, id);
      Stop(id);
    }

    method StopEach(ids: set<string>)
      requires Valid()
      modifies this`current, this`snapshot, this`active, this`ops, this`ledger
      ensures Valid() && active == old(active) - ids && Stilled(ids, old(current), current)
    {
      var todo := ids;
      ghost var done: set<string> := {};
      while todo != {}
        invariant Valid() && todo + done == ids
        invariant active == old(active) - done && Stilled(done, old(current), current)
        decreases todo
      {
        var id :| id in todo;
        StopNext(id, done, old(Now()));
        todo, done := todo - {id}, done + {id};
      }
    }

    /** Starts one more of several tunnels, `done` having been started since `before`. */
    method StartNext(id: string, ghost done: set<string>, ghost before: Fleet)
      requires Valid() && Launched(done, TheRoster(), before, Now())
      modifies this`current, this`snapshot, this`active, this`nextTask, this`ops, this`ledger
      ensures Valid() && Launched(done + {id}, TheRoster(), before, Now())
    {
      ghost var now := Now();
      Start(id);
      LaunchedThen(done, id, TheRoster(), before, now, Now());
    }

    method StartEach(ids: set<string>)
      requires Valid()
      modifies this`current, this`snapshot, this`active, this`nextTask, this`ops, this`ledger
      ensures Valid()
      ensures Launched(ids, TheRoster(), old(Now()), Now())
    {
      var todo := ids;
      ghost var done: set<string> := {};
      while todo != {}
        invariant Valid() && todo + done == ids
        invariant Launched(done, TheRoster(), old(Now()), Now())
        decreases todo
      {
        var id :| id in todo;
        StartNext(id, done, old(Now()));
        todo, done := todo - {id}, done + {id};
      }
    }

    // ----- a new configuration -----

    method AdoptViews()
      requires Replay(ops) == Some(ledger) && ledger.shown == current
      modifies this`current, this`ops, this`ledger
      ensures Replay(ops) == Some(ledger) && ledger == old(ledger).(shown := current)
      ensures current.Keys == old(current).Keys + tunnels.Keys
      ensures forall id | id in current ::
        current[id] == if id in old(current) then old(current)[id] else STOPPED_VIEW
    {
      var todo := tunnels.Keys - current.Keys;
      while todo != {}
        invariant todo <= tunnels.Keys && todo !! current.Keys
        invariant Replay(ops) == Some(ledger) && ledger == old(ledger).(shown := current)
        invariant current.Keys == old(current).Keys + (tunnels.Keys - todo)
        invariant forall id | id in current ::
          current[id] == if id in old(current) then old(current)[id] else STOPPED_VIEW
        decreases todo
      {
        var id :| id in todo;
        Note(Adopt(id));
        current := current[id := STOPPED_VIEW];
        todo := todo - {id};
      }
    }

    method RetainViews()
      requires Replay(ops) == Some(ledger) && ledger.shown == current && ledger.live.Keys <= tunnels.Keys
      modifies this`current, this`ops, this`ledger
      ensures Replay(ops) == Some(ledger) && ledger == old(ledger).(shown := current)
      ensures current.Keys == old(current).Keys * tunnels.Keys
      ensures forall id | id in current :: current[id] == old(current)[id]
    {
      var todo := current.Keys - tunnels.Keys;
      while todo != {}
        invariant todo <= current.Keys && todo !! tunnels.Keys
        invariant Replay(ops) == Some(ledger) && ledger == old(ledger).(shown := current)
        invariant current.Keys == old(current).Keys * tunnels.Keys + todo
        invariant forall id | id in current :: current[id] == old(current)[id]
        decreases todo
      {
        var id :| id in todo;
        Note(Forget(id));
        current := current - {id};
        todo := todo - {id};
      }
    }

    /** Every outdated running tunnel is cancelled and joined before anything is started. */
    method ReplaceConfig(config: ManagedConfig)
      requires Valid()
      modifies this`hosts, this`groups, this`tunnels, this`current, this`snapshot, this`active, this`nextTask,
               this`ops, this`ledger
      ensures Valid()
      ensures hosts == config.hosts && groups == config.groups && tunnels == TunnelMap(config.tunnels)
      ensures Replaced(Outdated(old(active).Keys, old(tunnels), old(hosts), tunnels, hosts), tunnels, TheRoster(),
                       old(Now()), Now())
    {
      var oldRunning := active.Keys;
      var updated := TunnelMap(config.tunnels);
      ghost var outdated := Outdated(active.Keys, tunnels, hosts, updated, config.hosts);
      StopOutdated(updated, config.hosts);
      Install(config, updated);
      StartInstalled(oldRunning, outdated, old(Now()));
    }

    /** Starts what ran before and what starts by itself. */
    method StartInstalled(oldRunning: set<string>, ghost outdated: set<string>, ghost before: Fleet)
      requires Valid() && oldRunning == before.active.Keys && Installed(outdated, tunnels, before, Now())
      modifies this`current, this`snapshot, this`active, this`nextTask, this`ops, this`ledger
      ensures Valid() && Replaced(outdated, tunnels, TheRoster(), before, Now())
    {
      ghost var installed := Now();
      var toStart := set id | id in tunnels && (tunnels[id].autoStart || id in oldRunning);
      StartEach(toStart);
      StopInstallStart(outdated, toStart, tunnels, TheRoster(), before, installed, Now());
    }

    method StopOutdated(updated: map<string, TunnelConfig>, newHosts: seq<SshHost>)
      requires Valid()
      modifies this`current, this`snapshot, this`active, this`ops, this`ledger
      ensures Valid()
      ensures active == old(active) - Outdated(old(active).Keys, tunnels, hosts, updated, newHosts)
      ensures forall id | id in active :: id in updated && active[id].plan == PlanOf(updated[id], newHosts)
      ensures current.Keys == old(current).Keys
      ensures forall id | id in current && (id in active || id !in old(active)) :: current[id] == old(current)[id]
    {
      var outdated := Outdated(active.Keys, tunnels, hosts, updated, newHosts);
      StopEach(outdated);
      forall id | id in active
        ensures id in updated && active[id].plan == PlanOf(updated[id], newHosts)
      {
        RestartExactlyWhenPlanChanges(id, tunnels, hosts, updated, newHosts);
      }
    }

    method Install(config: ManagedConfig, updated: map<string, TunnelConfig>)
      requires ViewsOk() && TasksOk() && updated == TunnelMap(config.tunnels)
      requires forall id | id in active :: id in updated && active[id].plan == PlanOf(updated[id], config.hosts)
      modifies this`hosts, this`groups, this`tunnels, this`current, this`snapshot, this`ops, this`ledger
      ensures Valid() && hosts == config.hosts && groups == config.groups && tunnels == updated
      ensures forall id | id in current ::
        current[id] == if id in old(current) then old(current)[id] else STOPPED_VIEW
    {
      hosts := config.hosts;
      groups := config.groups;
      tunnels := updated;
      RetainViews();
      AdoptViews();
      snapshot := current;
    }

    // ----- what the tasks report -----

    /** Takes over published states and joins the tasks that have finished by themselves. */
    method Refresh(published: map<string, SupervisorState>, exited: map<string, string>)
      requires Valid()
      modifies this`current, this`snapshot, this`active, this`ops, this`ledger
      ensures Valid()
      ensures active == old(active) - exited.Keys
      ensures current.Keys == old(current).Keys
      ensures forall id | id in current ::
        current[id] == (if id !in old(active) then old(current)[id]
                        else if id in exited then TunnelView(Blocked(TaskExited(exited[id])), None)
                        else if id in published then old(current)[id].(state := published[id])
                        else old(current)[id])
    {
      TakeStates(published);
      ReapEach(exited);
    }

    method ReapEach(exited: map<string, string>)
      requires Valid()
      modifies this`current, this`snapshot, this`active, this`ops, this`ledger
      ensures Valid() && active == old(active) - exited.Keys
      ensures Reaped(old(active).Keys, exited, old(current), current)
    {
      var ids := active.Keys * exited.Keys;
      ReapThese(ids, exited);
      assert Reaped(ids, exited, old(current), current);
    }

    /** Reaps one more of several tasks, `done` having been reaped since `before`. */
    method ReapNext(id: string, exited: map<string, string>, ghost done: set<string>, ghost before: Fleet)
      requires Valid() && id in before.active && id !in done && id in exited
      requires active == before.active - done && Reaped(done, exited, before.views, current)
      modifies this`current, this`snapshot, this`active, this`ops, this`ledger
      ensures Valid() && active == before.active - (done + {id}) && Reaped(done + {id}, exited, before.views, current)
    {
      ReapedThen(done, id, exited, before.views, current);
      WithoutThen(before.active, done, id);
      Reap(id, exited[id]);
    }

    method ReapThese(ids: set<string>, exited: map<string, string>)
      requires Valid() && forall id | id in ids :: id in active && id in exited
      modifies this`current, this`snapshot, this`active, this`ops, this`ledger
      ensures Valid() && active == old(active) - ids && Reaped(ids, exited, old(current), current)
    {
      ghost var before := Now();
      var todo := ids;
      ghost var done: set<string> := {};
      NothingReaped(before.active, exited, before.views);
      while todo != {}
        invariant Valid() && todo + done == ids && todo !! done
        invariant active == before.active - done && Reaped(done, exited, before.views, current)
        decreases todo
      {
        var id :| id in todo;
        ReapNext(id, exited, done, before);
        todo, done := todo - {id}, done + {id};
      }
      assert done == ids;
    }

    method TakeStates(published: map<string, SupervisorState>)
      requires Valid()
      modifies this`current, this`snapshot, this`ops, this`ledger
      ensures Valid() && ledger == old(ledger).(shown := current)
      ensures Reported(active.Keys, published, old(current), current)
    {
      var ids := active.Keys * published.Keys;
      TakeThese(ids, published);
      assert Reported(ids, published, old(current), current);
      snapshot := current;
    }

    method TakeThese(ids: set<string>, published: map<string, SupervisorState>)
      requires Replay(ops) == Some(ledger) && ledger.shown == current
      requires ids <= ledger.armed && ids <= published.Keys && ids <= current.Keys
      modifies this`current, this`ops, this`ledger
      ensures Replay(ops) == Some(ledger) && ledger == old(ledger).(shown := current)
      ensures Reported(ids, published, old(current), current)
    {
      var todo := ids;
      ghost var done: set<string> := {};
      while todo != {}
        invariant todo + done == ids && todo !! done
        invariant Replay(ops) == Some(ledger) && ledger == old(ledger).(shown := current)
        invariant Reported(done, published, old(current), current)
        decreases todo
      {
        var id :| id in todo;
        ReportedThen(done, id, published, old(current), current);
        var view := current[id].(state := published[id]);
        Note(Show(id, view));
        current := current[id := view];
        todo, done := todo - {id}, done + {id};
      }
    }

    method Reap(id: string, message: string)
      requires Valid() && id in active
      modifies this`current, this`snapshot, this`active, this`ops, this`ledger
      ensures Valid() && active == old(active) - {id}
      ensures current == old(current)[id := ExitedView(message)]
    {
      Note(Join(id, active[id], true));
      active := active - {id};
      SetState(id, Blocked(TaskExited(message)), None, Show(id, ExitedView(message)));
    }

    // ----- commands -----

    method Dispatch(command: CoreCommand)
      requires Valid()
      modifies this
      ensures Valid() && autoStart == old(autoStart) && Did(command, platform.isIp, old(Here()), Here())
    {
      if command.SaveConfig? {
        if command.persisted {
          ReplaceConfig(command.config);
        }
      } else if command.StartAll? || command.StopAll? || command.StartGroup? || command.StopGroup? {
        DispatchMany(command);
      } else if !command.NetworkRecovered? {   // which only sends retry hints to running tunnels
        DispatchOne(command);
      }
    }

    method DispatchOne(command: CoreCommand)
      requires Valid()
      requires command.StartTunnel? || command.StopTunnel? || command.RestartTunnel? || command.RetryTunnel?
      modifies this`current, this`snapshot, this`active, this`nextTask, this`ops, this`ledger
      ensures Valid() && DidOne(command, TheRoster(), old(Now()), Now())
    {
      match command {
        case StartTunnel(id) => Start(id);
        case StopTunnel(id) => Stop(id);
        case RestartTunnel(id) => RestartOne(id);
        case RetryTunnel(id) =>
          // a running tunnel only receives a retry hint
          if id !in active {
            Start(id);
          }
      }
    }

    method DispatchMany(command: CoreCommand)
      requires Valid() && (command.StartAll? || command.StopAll? || command.StartGroup? || command.StopGroup?)
      modifies this`current, this`snapshot, this`active, this`nextTask, this`ops, this`ledger
      ensures Valid() && DidMany(command, Configured(), TheRoster(), old(Now()), Now())
    {
      match command {
        case StartAll => StartEach(tunnels.Keys);
        case StopAll => StopEach(active.Keys);
        case StartGroup(group) => StartEach(InGroup(tunnels, group));
        case StopGroup(group) => StopEach(InGroup(tunnels, group));
      }
    }

    method RestartOne(id: string)
      requires Valid()
      modifies this`current, this`snapshot, this`active, this`nextTask, this`ops, this`ledger
      ensures Valid() && Restarted(id, TheRoster(), old(Now()), Now())
    {
      Stop(id);
      ghost var stopped := Now();
      Start(id);
      StopThenStart(id, TheRoster(), old(Now()), stopped, Now());
    }

    /** One turn of the select loop that does not end it. */
    method Turn(input: Input)
      requires Valid() && !Ends(input)
      modifies this
      ensures Valid() && Turned(input, platform.isIp, old(Here()), Here())
    {
      match input {
        case Command(command) => Dispatch(command);
        case Tick(published, exited) =>
          if active != map[] {
            Refresh(published, exited);
          }
      }
    }

    /**
      The select loop on a finite list of inputs.  Every prefix of a real run is one such list; the run ends when
      shutdown is requested or the command channel closes, and then no task is left.  `pictures` shows the manager
      after the automatic start and after each turn.
    */
    method Run(inputs: seq<Input>)
      returns (ended: bool, interrupted: bool, ghost started: set<string>, ghost pictures: seq<Picture>)
      requires Valid()
      modifies this
      ensures Valid()
      // the tunnels marked for it are started first, unless shutdown comes meanwhile
      ensures (forall id | id in started :: id in old(autoStart))
      ensures if interrupted then ended && |pictures| == 1 else forall id | id in old(autoStart) :: id in started
      ensures 1 <= |pictures| <= |inputs| + 1 && pictures[0].setup == old(Configured())
      ensures Launched(started, old(TheRoster()), old(Now()), pictures[0].fleet)
      // each input has its effect, up to the one that ends the run
      ensures forall k | 0 <= k < |pictures| - 1 ::
        !Ends(inputs[k]) && Turned(inputs[k], platform.isIp, pictures[k], pictures[k + 1])
      ensures !interrupted ==> if ended then |pictures| <= |inputs| && Ends(inputs[|pictures| - 1])
                               else |pictures| == |inputs| + 1
      ensures ended ==> active == map[] && ledger.live == map[]
      ensures var last := pictures[|pictures| - 1];
              Here() == if ended then last.(fleet := last.fleet.(active := map[])) else last
    {
      interrupted, started := StartAutomatically();
      pictures := [Here()];
      ended := interrupted;
      var n := 0;
      while n < |inputs| && !ended
        invariant |pictures| == n + 1 <= |inputs| + 1 && Valid() && pictures[n] == Here()
        invariant pictures[0].setup == old(Configured())
        invariant Launched(started, old(TheRoster()), old(Now()), pictures[0].fleet)
        invariant forall k | 0 <= k < n ::
          !Ends(inputs[k]) && Turned(inputs[k], platform.isIp, pictures[k], pictures[k + 1])
        invariant if interrupted then ended && n == 0 else ended ==> n < |inputs| && Ends(inputs[n])
        decreases |inputs| - n, !ended
      {
        if Ends(inputs[n]) {
          ended := true;
        } else {
          Turn(inputs[n]);
          pictures := pictures + [Here()];
          n := n + 1;
        }
      }
      if ended {
        JoinAll();
      }
    }

    /** Starts the tunnels marked for it, in order, until all are started or shutdown is requested. */
    method StartAutomatically() returns (interrupted: bool, ghost started: set<string>)
      requires Valid()
      modifies this`autoStart, this`current, this`snapshot, this`active, this`nextTask, this`ops, this`ledger
      ensures Valid() && autoStart == []
      ensures forall id | id in started :: id in old(autoStart)
      ensures !interrupted ==> forall id | id in old(autoStart) :: id in started
      ensures Launched(started, TheRoster(), old(Now()), Now())
    {
      var ids := autoStart;
      autoStart := [];
      interrupted, started := StartInOrder(ids);
    }

    method StartInOrder(ids: seq<string>) returns (interrupted: bool, ghost started: set<string>)
      requires Valid()
      modifies this`current, this`snapshot, this`active, this`nextTask, this`ops, this`ledger
      ensures Valid()
      ensures forall id | id in started :: id in ids
      ensures !interrupted ==> forall id | id in ids :: id in started
      ensures Launched(started, TheRoster(), old(Now()), Now())
    {
      started := {};
      for i := 0 to |ids|
        invariant Valid()
        invariant forall id | id in started :: id in ids
        invariant forall k | 0 <= k < i :: ids[k] in started
        invariant Launched(started, TheRoster(), old(Now()), Now())
      {
        var shutdown: bool := *;
        if shutdown {
          return true, started;
        }
        StartNext(ids[i], started, old(Now()));
        started := started + {ids[i]};
      }
      return false, started;
    }

    /** Shutdown: every task is cancelled first, then every task is joined. */
    method JoinAll()
      requires Valid()
      modifies this`active, this`ops, this`ledger
      ensures Valid() && active == map[]
    {
      CancelAll();
      while active.Keys != {}
        invariant Replay(ops) == Some(ledger) && TasksOk() && ledger.shown == old(ledger).shown
        invariant forall id | id in active :: active[id].task in ledger.cancelled
        decreases active.Keys
      {
        var id :| id in active.Keys;
        Note(Join(id, active[id], false));
        active := active - {id};
      }
    }

    method CancelAll()
      requires Replay(ops) == Some(ledger) && TasksOk()
      modifies this`ops, this`ledger
      ensures Replay(ops) == Some(ledger) && TasksOk() && ledger.shown == old(ledger).shown
      ensures forall id | id in active :: active[id].task in ledger.cancelled
    {
      var todo := active.Keys;
      while todo != {}
        invariant todo <= active.Keys
        invariant Replay(ops) == Some(ledger) && TasksOk() && ledger.shown == old(ledger).shown
        invariant forall id | id in active && id !in todo :: active[id].task in ledger.cancelled
        decreases todo
      {
        var id :| id in todo;
        Note(Cancel(id, active[id]));
        todo := todo - {id};
      }
    }
  }

  // ----- construction -----

  const MAX_TUNNELS: nat := 1024

  datatype ManagerError = TooManyTunnels | DuplicateTunnel(id: string)

  /** A manager is made exactly for at most 1024 tunnels with distinct ids; it owns them all, none running. */
  method NewManager(platform: Platform, hosts: seq<SshHost>, groups: seq<TunnelGroup>, tunnels: seq<TunnelConfig>)
    returns (r: Result<TunnelManager, ManagerError>)
    ensures r == Err(TooManyTunnels) <==> |tunnels| > 1024
    ensures r.Ok? <==>
      |tunnels| <= 1024 && forall i, j | 0 <= i < j < |tunnels| :: tunnels[i].id != tunnels[j].id
    ensures r.Err? && r.error.DuplicateTunnel? ==>
      exists i, j :: 0 <= i < j < |tunnels| && tunnels[i].id == r.error.id == tunnels[j].id
    ensures r.Ok? ==>
      && fresh(r.value) && r.value.Valid() && r.value.active == map[]
      && (forall id :: id in r.value.autoStart <==> exists t :: t in tunnels && t.autoStart && t.id == id)
      && r.value.current.Keys == r.value.tunnels.Keys == (set t | t in tunnels :: t.id)
      && (forall t | t in tunnels :: r.value.tunnels[t.id] == t && r.value.current[t.id] == STOPPED_VIEW)
  {
    if |tunnels| > MAX_TUNNELS {
      return Err(TooManyTunnels);
    }
    var definitions: map<string, TunnelConfig> := map[];
    for n := 0 to |tunnels|
      invariant definitions.Keys == set i | 0 <= i < n :: tunnels[i].id
      invariant forall i, j | 0 <= i < j < n :: tunnels[i].id != tunnels[j].id
      invariant forall i | 0 <= i < n :: definitions[tunnels[i].id] == tunnels[i]
    {
      if tunnels[n].id in definitions {
        return Err(DuplicateTunnel(tunnels[n].id));
      }
      definitions := definitions[tunnels[n].id := tunnels[n]];
    }
    TunnelMapHolds(tunnels);
    var manager := new TunnelManager(platform, hosts, groups, tunnels);
    return Ok(manager);
  }

  lemma {:induction false} TunnelMapHolds(tunnels: seq<TunnelConfig>)
    requires forall i, j | 0 <= i < j < |tunnels| :: tunnels[i].id != tunnels[j].id
    ensures TunnelMap(tunnels).Keys == set t | t in tunnels :: t.id
    ensures forall t | t in tunnels :: TunnelMap(tunnels)[t.id] == t
  {
    if |tunnels| > 0 {
      var init, last := tunnels[..|tunnels| - 1], tunnels[|tunnels| - 1];
      TunnelMapHolds(init);
      assert forall t :: t in tunnels <==> t in init || t == last;
      assert forall t | t in init :: t.id != last.id;
    }
  }
}
