/** The service daemon: what each of its callbacks does to its own state and to the world around it. */
module Service {
  import opened Basics
  import opened Generator
  import opened Cache
  import opened KillSwitch
  import opened Network
  import opened Nftables

  /** The settings of a connection as far as the daemon reads them; `valid` is the outcome of the property checks. */
  datatype Connection = Connection(
    uuid: string,
    params: Params,
    killSwitch: Option<string>,
    allowLan: Option<string>,
    apiKey: Option<string>,
    valid: bool)
  {
    predicate WantsKillSwitch() { killSwitch == Some("yes") }
    predicate AllowsLan() { allowLan == Some("yes") }
  }

  /** A request to the generator that is still in flight. */
  datatype Fetch = Fetch(uuid: string, params: Params, cancelled: bool)

  /**
   * An openvpn process that has not been reaped yet; `rules` are those loaded for it when it has a kill
   * switch. An earlier daemon's process is not `watched`.
   */
  datatype Child = Child(
    uuid: string, profile: Option<string>, rules: Option<Ruleset>, signalled: bool, exited: bool, watched: bool)
  {
    predicate IsLive() { !exited && !signalled }
    predicate IsGuarded() { IsLive() && rules.Some? }
  }

  /** The plugin's private fields (0 is no process), followed by the world: table, files, fetches and children. */
  datatype State = State(
    pid: nat,
    interactive: bool,
    started: bool,
    connection: Option<Connection>,
    fetch: Option<nat>,
    timer: bool,
    uuid: Option<string>,
    killSwitchActive: bool,
    unexpectedDrop: bool,
    table: Table,
    files: Files,
    fetches: map<nat, Fetch>,
    nextFetch: nat,
    children: map<nat, Child>)
  {
    predicate Valid() {
      connection.Some? ==> uuid == Some(connection.value.uuid)
    }

    /** The profile that openvpn and the kill switch read for a connection. */
    function ProfileOf(u: string): (profile: Option<string>) {
      if u in files.config then Some(files.config[u]) else None
    }
  }

  /** What the outside world answers while one callback runs. */
  datatype Env = Env(
    now: int,
    stateDirOk: bool,
    openvpnFound: bool,
    cleanupDeletes: bool,
    supersedeDeletes: bool,
    rollbackDeletes: bool,
    net: Net,
    resolvConf: Option<string>,
    nft: Nft,
    spawned: Option<nat>,
    disk: Disk,
    marksStale: bool)
  {
    /** Deleting the table works whenever it is tried. */
    predicate Deletes() { cleanupDeletes && supersedeDeletes && rollbackDeletes }
  }

  /** How a child ended. */
  datatype Status = Exited(code: nat) | Stopped | Signaled | Unclear {
    predicate IsFailure() { Stopped? || Signaled? || (Exited? && code != 0) }
  }

  datatype VpnState = Unknown | Init | Shutdown | Starting | Started | Stopping | VpnStopped

  datatype Kind = Plain | Interactive | NewSecrets

  datatype Event =
    | Connect(connection: Connection, kind: Kind)
    | Disconnect
    | FetchDone(id: nat, config: Option<string>)
    | ChildExit(pid: nat)
    | ChildWatch(child: nat, status: Status)
    | ConnectTimeout
    | StateChanged(state: VpnState)
    | Dispose
    | Restart

  datatype Step = Step(event: Event, env: Env)

  // ----- The callbacks

  function Signal(children: map<nat, Child>, pid: nat): (c: map<nat, Child>) {
    if pid != 0 && pid in children then children[pid := children[pid].(signalled := true)] else children
  }

  function Cancel(fetches: map<nat, Fetch>, fetch: Option<nat>): (f: map<nat, Fetch>) {
    if fetch.Some? && fetch.value in fetches
    then fetches[fetch.value := fetches[fetch.value].(cancelled := true)]
    else fetches
  }

  /** cleanup_plugin. */
  function Cleanup(s: State, env: Env): (s': State)
    ensures s'.Valid() && s'.connection.None?
  {
    State(0, false, false, None, None, false, None, s.killSwitchActive && s.unexpectedDrop, s.unexpectedDrop,
          if s.killSwitchActive && !s.unexpectedDrop then Disarmed(s.table, env.cleanupDeletes) else s.table,
          s.files, Cancel(s.fetches, s.fetch), s.nextFetch, Signal(s.children, s.pid))
  }

  /** The profile of the current connection is marked stale, if there is one. */
  function MarkCurrentStale(s: State, env: Env): (s': State)
    ensures s'.Valid() <==> s.Valid()
  {
    if s.uuid.None? then s else s.(files := MarkStale(s.files, s.uuid.value, env.marksStale))
  }

  /** The supersede point of run_openvpn: whatever an earlier attempt left behind goes. */
  function Supersede(s: State, env: Env): (s': State)
    ensures s'.Valid() <==> s.Valid()
  {
    s.(table := if s.killSwitchActive then Disarmed(s.table, env.supersedeDeletes) else s.table,
    killSwitchActive := false,
    unexpectedDrop := false)
  }

  /** The rules that the current connection asks for. */
  function WantedRules(s: State, env: Env): (rules: Option<Ruleset>)
    requires s.Valid() && s.connection.Some?
  {
    Generated(env.net, s.ProfileOf(s.uuid.value), env.resolvConf, s.connection.value.AllowsLan())
  }

  /** Spawning openvpn, with the kill switch rolled back when that fails. */
  function Spawn(s: State, env: Env, rules: Option<Ruleset>): (r: (State, bool))
    requires s.Valid() && s.connection.Some?
    ensures r.0.Valid()
  {
    match env.spawned
    case None =>
      var s' := s.(table := Disarmed(s.table, env.rollbackDeletes), killSwitchActive := false);
      (if s.killSwitchActive then s' else s, false)
    case Some(p) =>
      (s.(pid := p, timer := true,
       children := s.children[p := Child(s.uuid.value, s.ProfileOf(s.uuid.value), rules, false, false, true)]), true)
  }

  /** Arming the kill switch, without which openvpn is not started. */
  function ArmSpawn(s: State, env: Env): (r: (State, bool))
    requires s.Valid() && s.connection.Some?
    ensures r.0.Valid()
  {
    var rules := WantedRules(s, env);
    if rules.None? || !env.nft.Loads() then (s, false)
    else Spawn(s.(table := Armed(s.table, rules, env.nft), killSwitchActive := true), env, rules)
  }

  /** run_openvpn. */
  function RunOpenvpn(s: State, env: Env): (r: (State, bool))
    requires s.Valid() && s.connection.Some?
    ensures r.0.Valid()
  {
    if !env.openvpnFound then (s, false)
    else if s.connection.value.WantsKillSwitch() then ArmSpawn(Supersede(s, env), env)
    else Spawn(Supersede(s, env), env, None)
  }

  /** _connect_common. */
  function ConnectCommon(s: State, c: Connection, env: Env): (r: (State, bool))
    ensures s.Valid() ==> r.0.Valid()
  {
    if !c.valid then (s, false)
    else
      var s1 := Cleanup(s, env).(connection := Some(c), uuid := Some(c.uuid));
      if !env.stateDirOk then (s1, false)
      else if IsValid(s1.files, c.uuid, c.params, env.now) then RunOpenvpn(s1, env)
      else if c.apiKey.GetOr("") == "" then (s1, false)
      else
        (s1.(fetch := Some(s1.nextFetch),
         fetches := s1.fetches[s1.nextFetch := Fetch(c.uuid, c.params, false)],
         nextFetch := s1.nextFetch + 1), true)
  }

  /** real_connect, real_connect_interactive and real_new_secrets. */
  function Connected(s: State, c: Connection, kind: Kind, env: Env): (s': State)
    ensures s.Valid() ==> s'.Valid()
  {
    var (s1, ok) := ConnectCommon(s, c, env);
    if ok && kind.Interactive? then s1.(interactive := true) else s1
  }

  /** real_disconnect. */
  function Disconnected(s: State, env: Env): (s': State)
    ensures s'.Valid()
  {
    Cleanup(if s.pid != 0 && !s.started then MarkCurrentStale(s, env) else s, env)
  }

  /** fetch_done_cb; a cancelled fetch reports only that. */
  function Fetched(s: State, id: nat, config: Option<string>, env: Env): (s': State)
    requires s.Valid() && id in s.fetches
    ensures s'.Valid()
  {
    var s1 := s.(fetches := s.fetches - {id});
    if s.fetches[id].cancelled then s1
    else
      var s2 := s1.(fetch := None);
      if s2.connection.None? then s2
      else
        var u, params := s2.uuid.value, s2.connection.value.params;
        match config
        case Some(text) =>
          var s3 := s2.(files := Store(s2.files, u, params, text, env.now, env.disk));
          if env.disk.Completes() then RunOpenvpn(s3, env).0 else s3
        case None =>
          if Exists(s2.files, u, params) then RunOpenvpn(s2, env).0 else s2
  }

  /** openvpn_watch_cb: whichever child it is about, the current one is forgotten. */
  function Watched(s: State, child: nat, status: Status, env: Env): (s': State)
    ensures s.Valid() ==> s'.Valid()
  {
    var s1 := s.(children := s.children - {child}, pid := 0, timer := false);
    if !status.IsFailure() then s1
    else if !s.started then MarkCurrentStale(s1, env)
    else s1.(unexpectedDrop := true)
  }

  /** connect_timeout_cb. */
  function TimedOut(s: State, env: Env): (s': State)
    ensures s.Valid() ==> s'.Valid()
  {
    var s1 := s.(timer := false);
    if s.started then s1 else MarkCurrentStale(s1.(children := Signal(s.children, s.pid)), env)
  }

  /** state_changed_cb. */
  function StateChangedTo(s: State, state: VpnState): (s': State)
    ensures s.Valid() ==> s'.Valid()
  {
    match state
    case Started => s.(started := true, timer := false)
    case Starting => s
    case _ => s.(timer := false, connection := None)
  }

  function Departed(children: map<nat, Child>, pid: nat): (c: map<nat, Child>)
    requires pid in children
  {
    if children[pid].watched then children[pid := children[pid].(exited := true)] else children - {pid}
  }

  /** A child exits; the main loop has yet to tell, and for a child that it does not watch never will. */
  function Exit(s: State, pid: nat): (s': State)
    requires pid in s.children
    ensures s.Valid() ==> s'.Valid()
  {
    s.(children := Departed(s.children, pid))
  }

  /** The processes that a daemon leaves behind. */
  function Orphans(children: map<nat, Child>): (c: map<nat, Child>) {
    map p | p in children && !children[p].exited :: children[p].(watched := false)
  }

  /**
   * A new daemon process: a left-over table is deleted, and the old process's children live on without anyone
   * watching them.
   */
  function Restarted(s: State, env: Env): (s': State)
    ensures s'.Valid()
  {
    Fresh(Disarmed(s.table, env.cleanupDeletes), s.files).(children := Orphans(s.children))
  }

  function Fresh(table: Table, files: Files): (s: State)
    ensures s.Valid()
  {
    State(0, false, false, None, None, false, None, false, false, table, files, map[], 0, map[])
  }

  // ----- Runs

  /**
   * The event can happen: fetches, children and timers report only while they exist, and a new process has a
   * new id.
   */
  predicate Enabled(s: State, step: Step) {
    && (step.env.spawned.Some? ==> step.env.spawned.value != 0 && step.env.spawned.value !in s.children)
    && match step.event
       case FetchDone(id, _) => id in s.fetches
       case ChildExit(pid) => pid in s.children && !s.children[pid].exited
       case ChildWatch(child, _) => child in s.children && s.children[child].exited && s.children[child].watched
       case ConnectTimeout => s.timer
       case _ => true
  }

  function Next(s: State, step: Step): (s': State)
    requires s.Valid() && Enabled(s, step)
    ensures s'.Valid()
  {
    match step.event
    case Connect(c, kind) => Connected(s, c, kind, step.env)
    case Disconnect => Disconnected(s, step.env)
    case FetchDone(id, config) => Fetched(s, id, config, step.env)
    case ChildExit(pid) => Exit(s, pid)
    case ChildWatch(child, status) => Watched(s, child, status, step.env)
    case ConnectTimeout => TimedOut(s, step.env)
    case StateChanged(state) => StateChangedTo(s, state)
    case Dispose => Cleanup(s, step.env)
    case Restart => Restarted(s, step.env)
  }

  /** Every step can happen when its turn comes. */
  predicate IsRun(s: State, steps: seq<Step>)
    requires s.Valid()
    decreases |steps|
  {
    steps == [] || (Enabled(s, steps[0]) && IsRun(Next(s, steps[0]), steps[1..]))
  }

  function After(s: State, steps: seq<Step>): (s': State)
    requires s.Valid() && IsRun(s, steps)
    ensures s'.Valid()
    decreases |steps|
  {
    if steps == [] then s else After(Next(s, steps[0]), steps[1..])
  }
}
