/** What each callback can change, in the form that the theorems about runs need. */
module ServiceEffects {
  import opened Basics
  import opened Cache
  import opened KillSwitch
  import opened Nftables
  import opened Service

  // ----- Steps that start no openvpn

  /** A child keeps its connection, profile and rules, and does not come back to life. */
  predicate SameChild(c: Child, c': Child) {
    c'.uuid == c.uuid && c'.profile == c.profile && c'.rules == c.rules && (c'.IsLive() ==> c.IsLive()) &&
      (c'.watched ==> c.watched)
  }

  ghost predicate KeepsTable(s: State, s': State) {
    s'.table == s.table && s'.killSwitchActive == s.killSwitchActive && (s.unexpectedDrop ==> s'.unexpectedDrop)
  }

  ghost predicate DropsTable(s: State, s': State, env: Env) {
    s'.table == Disarmed(s.table, env.cleanupDeletes) && !s'.killSwitchActive && s'.pid == 0
  }

  /** Nothing new is spawned; the table goes only when no drop is pending or the daemon is a new process. */
  ghost predicate Quiet(s: State, s': State, step: Step) {
    && (s'.pid == s.pid || s'.pid == 0)
    && (forall c :: c in s'.children ==> c in s.children && SameChild(s.children[c], s'.children[c]))
    && (KeepsTable(s, s') ||
       ((step.event.Restart? || (s.killSwitchActive && !s.unexpectedDrop)) && DropsTable(s, s', step.env)))
  }

  predicate StartsNothing(event: Event) { !event.Connect? && !event.FetchDone? }

  lemma CleanupQuiet(s: State, step: Step)
    ensures Quiet(s, Cleanup(s, step.env), step)
  {
    hide Cancel, State.Valid;
  }

  lemma WatchedQuiet(s: State, child: nat, status: Status, step: Step)
    ensures Quiet(s, Watched(s, child, status, step.env), step)
  {
    hide MarkStale, State.Valid;
  }

  lemma TimedOutQuiet(s: State, step: Step)
    ensures Quiet(s, TimedOut(s, step.env), step)
  {
    hide MarkStale, State.Valid;
  }

  lemma ExitQuiet(s: State, pid: nat, step: Step)
    requires pid in s.children
    ensures Quiet(s, Exit(s, pid), step)
  {
    DepartedSame(s.children, pid);
    hide State.Valid, Departed;
  }

  lemma DepartedSame(children: map<nat, Child>, pid: nat)
    requires pid in children
    ensures var children' := Departed(children, pid);
            forall c :: c in children' ==> c in children && SameChild(children[c], children'[c])
  {
  }

  lemma StateChangedQuiet(s: State, state: VpnState, step: Step)
    ensures Quiet(s, StateChangedTo(s, state), step)
  {
    hide State.Valid;
  }

  lemma RestartQuiet(s: State, step: Step)
    requires step.event.Restart?
    ensures Quiet(s, Restarted(s, step.env), step)
  {
    hide State.Valid;
  }

  lemma DisconnectedQuiet(s: State, step: Step)
    ensures Quiet(s, Disconnected(s, step.env), step)
  {
    hide Cleanup;
    CleanupQuiet(s, step);
    CleanupQuiet(MarkCurrentStale(s, step.env), step);
  }

  lemma StepQuiet(s: State, step: Step)
    requires s.Valid() && Enabled(s, step) && StartsNothing(step.event)
    ensures Quiet(s, Next(s, step), step)
  {
    hide Watched, TimedOut, Cleanup, Disconnected, Quiet, State.Valid, StateChangedTo, Restarted, Exit;
    match step.event
    case Disconnect => DisconnectedQuiet(s, step);
    case ChildWatch(child, status) => WatchedQuiet(s, child, status, step);
    case ConnectTimeout => TimedOutQuiet(s, step);
    case Dispose => CleanupQuiet(s, step);
    case ChildExit(pid) => ExitQuiet(s, pid, step);
    case StateChanged(state) => StateChangedQuiet(s, state, step);
    case Restart => RestartQuiet(s, step);
    case _ =>
  }

  // ----- Starting openvpn

  /** The rules that the attempt was armed with, if it wants a kill switch. */
  function AttemptRules(s: State, env: Env): (rules: Option<Ruleset>)
    requires s.Valid() && s.connection.Some?
  {
    if s.connection.value.WantsKillSwitch() then WantedRules(s, env) else None
  }

  /** The rest of the plugin stays as it is, and a spawned child has the current profile and the given rules. */
  ghost predicate SpawnEffect(s: State, s': State, env: Env, rules: Option<Ruleset>)
    requires s.Valid() && s.connection.Some?
  {
    && s'.connection == s.connection && s'.uuid == s.uuid && s'.files == s.files
    && s'.fetch == s.fetch && s'.fetches == s.fetches && s'.nextFetch == s.nextFetch && s'.started == s.started
    && s'.interactive == s.interactive
    && ((s'.pid == s.pid && s'.children == s.children && s'.timer == s.timer)
        || (&& env.spawned.Some? && s'.pid == env.spawned.value && s'.timer
            && s'.children ==
               s.children[s'.pid := Child(s.uuid.value, s.ProfileOf(s.uuid.value), rules, false, false, true)]))
  }

  lemma SpawnHasEffect(s: State, env: Env, rules: Option<Ruleset>)
    requires s.Valid() && s.connection.Some?
    ensures SpawnEffect(s, Spawn(s, env, rules).0, env, rules) &&
            Spawn(s, env, rules).0.unexpectedDrop == s.unexpectedDrop
  {
    hide Disarmed, State.ProfileOf;
  }

  /** What run_openvpn does to the rest of the plugin, whether it succeeds or not. */
  ghost predicate RunEffect(s: State, s': State, env: Env)
    requires s.Valid() && s.connection.Some?
  {
    && SpawnEffect(s, s', env, AttemptRules(s, env))
    && s'.unexpectedDrop == (s.unexpectedDrop && !env.openvpnFound)
    && (!env.openvpnFound ==> s' == s)
    && (s'.pid != s.pid && s.connection.value.WantsKillSwitch() ==> AttemptRules(s, env).Some?)
  }

  lemma ArmSpawnHasEffect(s: State, env: Env)
    requires s.Valid() && s.connection.Some? && s.connection.value.WantsKillSwitch()
    ensures var s' := ArmSpawn(s, env).0;
            && SpawnEffect(s, s', env, AttemptRules(s, env)) && s'.unexpectedDrop == s.unexpectedDrop
            && (s'.pid != s.pid ==> AttemptRules(s, env).Some?)
  {
    hide Generated, Armed, Nft.Loads, Spawn;
    var rules := WantedRules(s, env);
    if rules.Some? && env.nft.Loads() {
      SpawnHasEffect(s.(table := Armed(s.table, rules, env.nft), killSwitchActive := true), env, rules);
    }
  }

  lemma RunHasEffect(s: State, env: Env)
    requires s.Valid() && s.connection.Some?
    ensures RunEffect(s, RunOpenvpn(s, env).0, env)
  {
    hide Generated, ArmSpawn, Spawn, Disarmed;
    var s1 := Supersede(s, env);
    if s.connection.value.WantsKillSwitch() {
      ArmSpawnHasEffect(s1, env);
      assert AttemptRules(s1, env) == AttemptRules(s, env);
    } else {
      SpawnHasEffect(s1, env, None);
    }
  }

  // ----- Connecting and finishing a fetch

  /**
   * The step gets as far as run_openvpn: from a valid cached profile, or from a fetch that stored one or found
   * an old one.
   */
  predicate Runs(s: State, step: Step)
    requires s.Valid() && Enabled(s, step)
  {
    match step.event
    case Connect(c, _) => c.valid && step.env.stateDirOk && IsValid(s.files, c.uuid, c.params, step.env.now)
    case FetchDone(id, config) =>
      && !s.fetches[id].cancelled && s.connection.Some?
      && if config.Some? then step.env.disk.Completes() else Exists(s.files, s.uuid.value, s.connection.value.params)
    case _ => false
  }

  /** And further, as far as the point where it supersedes what an earlier attempt left behind. */
  predicate Supersedes(s: State, step: Step)
    requires s.Valid() && Enabled(s, step)
  {
    Runs(s, step) && step.env.openvpnFound
  }

  function ConnectBase(s: State, c: Connection, env: Env): (base: State)
    ensures base.Valid()
  {
    Cleanup(s, env).(connection := Some(c), uuid := Some(c.uuid))
  }

  function FetchBase(s: State, id: nat, config: Option<string>, env: Env): (base: State)
    requires s.Valid() && id in s.fetches && s.connection.Some?
    ensures base.Valid() && base.connection == s.connection
  {
    s.(fetches := s.fetches - {id}, fetch := None,
    files := if config.Some?
      then Store(s.files, s.uuid.value, s.connection.value.params, config.value, env.now, env.disk)
      else s.files)
  }

  /** The end of a fetch stores what it delivered, and touches the files in no other way. */
  lemma FetchedFiles(s: State, id: nat, config: Option<string>, env: Env)
    requires s.Valid() && id in s.fetches
    ensures Fetched(s, id, config, env).files
            == if s.fetches[id].cancelled || s.connection.None? || config.None? then s.files
               else Store(s.files, s.uuid.value, s.connection.value.params, config.value, env.now, env.disk)
  {
    hide RunOpenvpn, Exists, Store, Disk.Completes, AttemptRules;
    if !s.fetches[id].cancelled && s.connection.Some? {
      RunHasEffect(FetchBase(s, id, config, env), env);
      RunHasEffect(s.(fetches := s.fetches - {id}, fetch := None), env);
    }
  }

  /** The state in which run_openvpn is called. */
  function Base(s: State, step: Step): (base: State)
    requires s.Valid() && Enabled(s, step) && Runs(s, step)
    ensures base.Valid() && base.connection.Some?
  {
    match step.event
    case Connect(c, _) => ConnectBase(s, c, step.env)
    case FetchDone(id, config) => FetchBase(s, id, config, step.env)
  }

  lemma ConnectSplit(s: State, c: Connection, kind: Kind, env: Env)
    requires c.valid && env.stateDirOk && IsValid(s.files, c.uuid, c.params, env.now)
    ensures Connected(s, c, kind, env)
            == RunOpenvpn(ConnectBase(s, c, env), env).0.(interactive := Connected(s, c, kind, env).interactive)
  {
    hide RunOpenvpn, IsValid, State.Valid;
  }

  lemma FetchSplit(s: State, id: nat, config: Option<string>, env: Env)
    requires s.Valid() && id in s.fetches && !s.fetches[id].cancelled && s.connection.Some?
    requires if config.Some? then env.disk.Completes() else Exists(s.files, s.uuid.value, s.connection.value.params)
    ensures Fetched(s, id, config, env) == RunOpenvpn(FetchBase(s, id, config, env), env).0
  {
    hide RunOpenvpn, Exists, Store, Disk.Completes;
    if config.None? {
      assert FetchBase(s, id, config, env) == s.(fetches := s.fetches - {id}, fetch := None);
    }
  }

  /** A step that runs openvpn is run_openvpn in its base state, up to the flag for interactive requests. */
  lemma RunsBase(s: State, step: Step)
    requires s.Valid() && Enabled(s, step) && Runs(s, step)
    ensures var s', r := Next(s, step), RunOpenvpn(Base(s, step), step.env).0; s' == r.(interactive := s'.interactive)
  {
    hide RunOpenvpn, IsValid, Exists, ConnectBase, FetchBase, Connected, Fetched, State.Valid;
    match step.event
    case Connect(c, kind) => ConnectSplit(s, c, kind, step.env);
    case FetchDone(id, config) => FetchSplit(s, id, config, step.env);
    case _ =>
  }

  /** Quietness is about the process, the children and the table only. */
  lemma QuietFrame(s: State, a: State, b: State, step: Step)
    requires Quiet(s, a, step) && b.pid == a.pid && b.children == a.children
    requires b.table == a.table && b.killSwitchActive == a.killSwitchActive && b.unexpectedDrop == a.unexpectedDrop
    ensures Quiet(s, b, step)
  {
  }

  lemma ConnectBaseQuiet(s: State, c: Connection, step: Step)
    ensures Quiet(s, ConnectBase(s, c, step.env), step)
  {
    hide Cleanup, Quiet;
    CleanupQuiet(s, step);
    QuietFrame(s, Cleanup(s, step.env), ConnectBase(s, c, step.env), step);
  }

  lemma ConnectQuiet(s: State, c: Connection, kind: Kind, step: Step)
    requires !(c.valid && step.env.stateDirOk && IsValid(s.files, c.uuid, c.params, step.env.now))
    ensures Quiet(s, Connected(s, c, kind, step.env), step)
  {
    QuietItself(s, step);
    CleanupFiles(s, step.env);
    ConnectBaseQuiet(s, c, step);
    hide Cleanup, IsValid, Quiet, State.Valid;
    if c.valid {
      QuietFrame(s, ConnectBase(s, c, step.env), Connected(s, c, kind, step.env), step);
    }
  }

  lemma QuietItself(s: State, step: Step)
    ensures Quiet(s, s, step)
  {
  }

  lemma CleanupFiles(s: State, env: Env)
    ensures Cleanup(s, env).files == s.files
  {
  }

  lemma FetchQuiet(s: State, id: nat, config: Option<string>, step: Step)
    requires s.Valid() && id in s.fetches
    requires s.fetches[id].cancelled || s.connection.None?
             || !(if config.Some? then step.env.disk.Completes()
                  else Exists(s.files, s.uuid.value, s.connection.value.params))
    ensures Quiet(s, Fetched(s, id, config, step.env), step)
  {
    hide RunOpenvpn, Exists, Store, Disk.Completes;
  }

  lemma BaseQuiet(s: State, step: Step)
    requires s.Valid() && Enabled(s, step) && Runs(s, step)
    ensures Quiet(s, Base(s, step), step)
  {
    hide Quiet, IsValid, Exists, ConnectBase;
    QuietItself(s, step);
    match step.event
    case Connect(c, _) => ConnectBaseQuiet(s, c, step);
    case FetchDone(id, config) => QuietFrame(s, s, FetchBase(s, id, config, step.env), step);
    case _ =>
  }

  lemma NotRunning(s: State, step: Step)
    requires s.Valid() && Enabled(s, step) && !Runs(s, step) && step.event.Connect?
    ensures !(step.event.connection.valid && step.env.stateDirOk
              && IsValid(s.files, step.event.connection.uuid, step.event.connection.params, step.env.now))
  {
  }

  /** Every step that does not get to the supersede point is quiet. */
  lemma UnlessSuperseding(s: State, step: Step)
    requires s.Valid() && Enabled(s, step) && !Supersedes(s, step)
    ensures Quiet(s, Next(s, step), step)
  {
    hide Connected, Fetched, IsValid, Exists, Quiet, Base, RunOpenvpn, State.Valid;
    if Runs(s, step) {
      BaseQuiet(s, step);
      RunsBase(s, step);
      RunHasEffect(Base(s, step), step.env);
      QuietFrame(s, Base(s, step), Next(s, step), step);
    } else {
      match step.event
      case Connect(c, kind) => ConnectQuiet(s, c, kind, step);
      case FetchDone(id, config) => FetchQuiet(s, id, config, step);
      case _ => StepQuiet(s, step);
    }
  }
}
