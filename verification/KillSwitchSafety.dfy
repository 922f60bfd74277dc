/** What the kill switch guarantees over every run of the daemon, and where the guarantee ends. */
module KillSwitchSafety {
  import opened Basics
  import opened Cache
  import opened Firewall
  import opened FirewallPolicy
  import opened KillSwitch
  import opened Network
  import opened Nftables
  import opened Service
  import opened ServiceEffects
  import opened ServiceSafety

  /** A new process has become the current one. */
  predicate Spawns(s: State, step: Step)
    requires s.Valid() && Enabled(s, step)
  {
    Next(s, step).pid != 0 && Next(s, step).pid != s.pid
  }

  /** When run_openvpn is called there is no current process and no fetch. */
  lemma BaseIsIdle(s: State, step: Step)
    requires Inv(s) && Enabled(s, step) && Runs(s, step)
    ensures Base(s, step).pid == 0 && Base(s, step).fetch.None? && 0 !in Base(s, step).children
  {
    hide IsValid, Exists, Store, GuardInv, Cancel, Disarmed;
  }

  /** A process is spawned with the current profile, and with a kill switch if the connection wants one. */
  lemma SpawnDetails(s: State, step: Step)
    requires Inv(s) && Enabled(s, step) && Spawns(s, step)
    ensures Supersedes(s, step)
    ensures var s', base := Next(s, step), Base(s, step);
            && s'.pid in s'.children && s'.timer && s'.connection == base.connection && s'.files == base.files
            && s'.children[s'.pid] ==
               Child(base.uuid.value, base.ProfileOf(base.uuid.value), AttemptRules(base, step.env), false, false, true)
            && (base.connection.value.killSwitch == Some("yes") ==> AttemptRules(base, step.env).Some?)
  {
    hide Next, Base, Runs, ProcessInv, FetchInv, GuardInv, AttemptRules, RunOpenvpn;
    if !Supersedes(s, step) {
      UnlessSuperseding(s, step);
    } else {
      BaseIsIdle(s, step);
      RunsBase(s, step);
      RunHasEffect(Base(s, step), step.env);
    }
  }

  // ----- The table when deleting it always works

  /**
   * The table is loaded exactly while the plugin thinks so, and then with the rules of the current attempt and
   * no others.
   */
  ghost predicate TableExact(s: State) {
    && (s.table.Some? <==> s.killSwitchActive)
    && (s.pid != 0 && s.pid in s.children ==> s.table == s.children[s.pid].rules)
  }

  lemma SpawnExact(s: State, env: Env, rules: Option<Ruleset>)
    requires s.Valid() && s.connection.Some? && env.Deletes() && s.pid == 0 && TableExact(s) && s.table == rules
    ensures TableExact(Spawn(s, env, rules).0)
  {
  }

  lemma RunExact(s: State, env: Env)
    requires s.Valid() && s.connection.Some? && env.Deletes() && s.pid == 0 && TableExact(s)
    ensures TableExact(RunOpenvpn(s, env).0)
  {
    hide Generated, Spawn, Nft.Loads;
    var s1 := Supersede(s, env);
    assert s1.table == None;
    SpawnExact(s1, env, None);
    var rules := WantedRules(s1, env);
    if rules.Some? && env.nft.Loads() {
      var s2 := s1.(table := Armed(s1.table, rules, env.nft), killSwitchActive := true);
      SpawnExact(s2, env, rules);
    }
  }

  lemma QuietExact(s: State, s': State, step: Step)
    requires TableExact(s) && step.env.Deletes() && Quiet(s, s', step)
    ensures TableExact(s')
  {
  }

  lemma StepExact(s: State, step: Step)
    requires Inv(s) && TableExact(s) && Enabled(s, step) && step.env.Deletes()
    ensures TableExact(Next(s, step))
  {
    hide Next, Base, Runs, Quiet, RunOpenvpn, ProcessInv, FetchInv, GuardInv, Env.Deletes;
    if Supersedes(s, step) {
      BaseQuiet(s, step);
      QuietExact(s, Base(s, step), step);
      BaseIsIdle(s, step);
      RunExact(Base(s, step), step.env);
      RunsBase(s, step);
    } else {
      UnlessSuperseding(s, step);
      QuietExact(s, Next(s, step), step);
    }
  }

  predicate AllDelete(steps: seq<Step>) { forall i :: 0 <= i < |steps| ==> steps[i].env.Deletes() }

  /** If deleting the table always works, the table is at every moment exactly the current attempt's. */
  lemma {:induction false} RunTableExact(s: State, steps: seq<Step>)
    requires Inv(s) && TableExact(s) && IsRun(s, steps) && AllDelete(steps)
    ensures TableExact(After(s, steps))
    decreases |steps|
  {
    hide TableExact, ProcessInv, FetchInv, GuardInv, Next, Enabled, Env.Deletes;
    if steps != [] {
      StepInv(s, steps[0]);
      StepExact(s, steps[0]);
      RunTableExact(Next(s, steps[0]), steps[1..]);
    }
  }

  /** When a process with a kill switch is spawned, the table accepts exactly what its profile and settings permit. */
  lemma SpawnedGuard(s: State, step: Step, d: string, p: Packet)
    requires Inv(s) && TableExact(s) && Enabled(s, step) && step.env.Deletes() && NetOk(step.env.net) && Spawns(s, step)
    requires Next(s, step).connection.Some? && Next(s, step).connection.value.killSwitch == Some("yes")
    ensures var s', env := Next(s, step), step.env;
            && s'.pid in s'.children && s'.table.Some? && s'.children[s'.pid].profile.Some?
            && var lines := Lines(s'.children[s'.pid].profile.value);
            IsDefault(lines, d) && PlainPorts(env.net, lines, d) ==>
              (Accepts(env.net, s'.table.value, p)
               <==> Permitted(env.net, lines, d, OptLines(env.resolvConf),
                              s'.connection.value.allowLan == Some("yes"), p))
  {
    SpawnDetails(s, step);
    StepExact(s, step);
    hide Next, Enabled, ProcessInv, FetchInv, GuardInv, Base, Runs, NetOk, Env.Deletes, Generated, Lines,
      IsDefault, PlainPorts, Accepts, Permitted, OptLines;
    var s', base := Next(s, step), Base(s, step);
    var profile := base.ProfileOf(base.uuid.value);
    assert s'.table == Generated(step.env.net, profile, step.env.resolvConf, base.connection.value.AllowsLan());
    RulesNeedProfile(step.env.net, profile, step.env.resolvConf, base.connection.value.AllowsLan());
    if IsDefault(Lines(profile.value), d) && PlainPorts(step.env.net, Lines(profile.value), d) {
      AcceptedExactly(step.env.net, profile.value, step.env.resolvConf, base.connection.value.AllowsLan(),
        s'.table.value, d, p);
    }
  }

  lemma RulesNeedProfile(net: Net, profile: Option<string>, resolvConf: Option<string>, allowLan: bool)
    requires Generated(net, profile, resolvConf, allowLan).Some?
    ensures profile.Some?
  {
  }

  /** A child that stays keeps its connection, profile and rules. */
  lemma ChildKept(s: State, step: Step, c: nat)
    requires Inv(s) && Enabled(s, step) && c in s.children && c in Next(s, step).children
    ensures SameChild(s.children[c], Next(s, step).children[c])
  {
    hide Next, Base, Runs, RunOpenvpn, ProcessInv, FetchInv, GuardInv, AttemptRules, State.ProfileOf, KeepsTable,
      DropsTable;
    if Supersedes(s, step) {
      BaseQuiet(s, step);
      RunsBase(s, step);
      RunHasEffect(Base(s, step), step.env);
    } else {
      UnlessSuperseding(s, step);
    }
  }

  /** The child has not been reaped at any point of the run. */
  predicate Stays(s: State, steps: seq<Step>, c: nat)
    requires s.Valid() && IsRun(s, steps)
    decreases |steps|
  {
    c in s.children && (steps == [] || Stays(Next(s, steps[0]), steps[1..], c))
  }

  lemma {:induction false} RulesStay(s: State, steps: seq<Step>, c: nat)
    requires Inv(s) && IsRun(s, steps) && Stays(s, steps, c)
    ensures c in After(s, steps).children && SameChild(s.children[c], After(s, steps).children[c])
    decreases |steps|
  {
    hide ProcessInv, FetchInv, GuardInv, Next, Enabled;
    if steps != [] {
      StepInv(s, steps[0]);
      ChildKept(s, steps[0], c);
      RulesStay(Next(s, steps[0]), steps[1..], c);
    }
  }

  /**
   * For as long as a process that was spawned with a kill switch is the current one, whatever happens in between, a
   * packet leaves the machine exactly when the profile, the resolvers and the LAN setting of its spawn permit it.
   */
  lemma GuardedThroughout(s: State, step: Step, steps: seq<Step>, d: string, p: Packet)
    requires Inv(s) && TableExact(s) && Enabled(s, step) && step.env.Deletes() && NetOk(step.env.net) && Spawns(s, step)
    requires Next(s, step).connection.Some? && Next(s, step).connection.value.killSwitch == Some("yes")
    requires IsRun(Next(s, step), steps) && AllDelete(steps) && Stays(Next(s, step), steps, Next(s, step).pid)
    requires After(Next(s, step), steps).pid == Next(s, step).pid
    ensures var s1, t, env := Next(s, step), After(Next(s, step), steps), step.env;
            && s1.pid in s1.children && s1.children[s1.pid].profile.Some? && t.table.Some?
            && var lines := Lines(s1.children[s1.pid].profile.value);
            IsDefault(lines, d) && PlainPorts(env.net, lines, d) ==>
              (Accepts(env.net, t.table.value, p)
               <==> Permitted(env.net, lines, d, OptLines(env.resolvConf),
                              s1.connection.value.allowLan == Some("yes"), p))
  {
    var s1 := Next(s, step);
    StepInv(s, step);
    StepExact(s, step);
    SpawnedGuard(s, step, d, p);
    RulesStay(s1, steps, s1.pid);
    RunTableExact(s1, steps);
    hide After, IsRun, Stays, Next, Enabled, Spawns, ProcessInv, FetchInv, GuardInv, Lines, IsDefault,
      PlainPorts, Accepts, Permitted, OptLines, AllDelete;
  }

  // ----- Nothing is blocked for longer than intended

  lemma SpawnFailureReleases(s: State, env: Env, rules: Option<Ruleset>)
    requires s.Valid() && s.connection.Some? && s.pid == 0 && env.Deletes() && (s.table.Some? ==> s.killSwitchActive)
    requires env.spawned.Some? ==> env.spawned.value != 0
    ensures Spawn(s, env, rules).0.pid == 0 ==> Spawn(s, env, rules).0.table == None
  {
  }

  lemma RunFailureReleases(s: State, env: Env)
    requires s.Valid() && s.connection.Some? && s.pid == 0 && env.Deletes() && TableExact(s) && env.openvpnFound
    requires env.spawned.Some? ==> env.spawned.value != 0
    ensures RunOpenvpn(s, env).0.pid == 0 ==> RunOpenvpn(s, env).0.table == None
  {
    hide Generated, Spawn, Nft.Loads, Armed;
    var s1 := Supersede(s, env);
    assert s1.table == None;
    SpawnFailureReleases(s1, env, None);
    var rules := WantedRules(s1, env);
    if rules.Some? && env.nft.Loads() {
      SpawnFailureReleases(s1.(table := Armed(s1.table, rules, env.nft), killSwitchActive := true), env, rules);
    }
  }

  /** An attempt that supersedes what was there and then fails to start its process leaves no table behind. */
  lemma FailedAttemptReleases(s: State, step: Step)
    requires Inv(s) && TableExact(s) && Enabled(s, step) && step.env.Deletes() && Supersedes(s, step) &&
             Next(s, step).pid == 0
    ensures Next(s, step).table == None
  {
    hide Next, Base, Runs, Quiet, RunOpenvpn, ProcessInv, FetchInv, GuardInv, Env.Deletes, TableExact;
    BaseQuiet(s, step);
    QuietExact(s, Base(s, step), step);
    BaseIsIdle(s, step);
    RunsBase(s, step);
    RunFailureReleases(Base(s, step), step.env);
  }

  /** A disconnect, like the end of the plugin, leaves a table exactly when one was loaded and a drop is pending. */
  lemma DisconnectReleases(s: State, step: Step)
    requires s.Valid() && TableExact(s) && Enabled(s, step) && step.env.Deletes() &&
             (step.event.Disconnect? || step.event.Dispose?)
    ensures Next(s, step).table == if s.unexpectedDrop then s.table else None
  {
    hide MarkStale, Signal, Cancel;
  }

  /** A timeout before the started state tells the process of the attempt to end. */
  lemma TimeoutEndsProcess(s: State, step: Step)
    requires Inv(s) && Enabled(s, step) && step.event.ConnectTimeout? && !s.started
    ensures s.pid != 0 && s.pid in Next(s, step).children && Next(s, step).children[s.pid].signalled
  {
    hide MarkStale, FetchInv, GuardInv;
  }

  // ----- An unexpected drop

  /** No step of the run supersedes, and the daemon is not restarted. */
  predicate IsUneventful(s: State, steps: seq<Step>)
    requires s.Valid() && IsRun(s, steps)
    decreases |steps|
  {
    steps == [] || (!Supersedes(s, steps[0]) && !steps[0].event.Restart? && IsUneventful(Next(s, steps[0]), steps[1..]))
  }

  /** With a drop pending, the supersede point and a restart are the only ways out, and both end it. */
  lemma DropStep(s: State, step: Step)
    requires s.Valid() && Enabled(s, step) && s.unexpectedDrop
    ensures Next(s, step).unexpectedDrop <==> !Supersedes(s, step) && !step.event.Restart?
    ensures Next(s, step).unexpectedDrop ==> Next(s, step).table == s.table
  {
    hide Base, Runs, RunOpenvpn, Connected, Fetched, Watched, TimedOut, StateChangedTo, Cleanup, Disconnected, Exit,
      Disarmed, State.Valid;
    if Supersedes(s, step) {
      RunsBase(s, step);
      RunHasEffect(Base(s, step), step.env);
    } else {
      UnlessSuperseding(s, step);
    }
  }

  /** After an unexpected drop the table stays through any continuation, however long, up to those two. */
  lemma {:induction false} DropKept(s: State, steps: seq<Step>)
    requires s.Valid() && s.unexpectedDrop && IsRun(s, steps) && IsUneventful(s, steps)
    ensures After(s, steps).table == s.table && After(s, steps).unexpectedDrop
    decreases |steps|
  {
    hide Next, Supersedes, Enabled;
    if steps != [] {
      DropStep(s, steps[0]);
      DropKept(Next(s, steps[0]), steps[1..]);
    }
  }

  /** When the process of a started attempt fails, its kill switch outlasts it. */
  lemma DropKeepsBlocking(s: State, step: Step, steps: seq<Step>)
    requires Inv(s) && Enabled(s, step) && s.started && s.pid != 0
    requires step.event.ChildWatch? && step.event.child == s.pid && step.event.status.IsFailure() &&
             s.children[s.pid].rules.Some?
    requires IsRun(Next(s, step), steps) && IsUneventful(Next(s, step), steps)
    ensures HasRules(After(Next(s, step), steps).table, s.children[s.pid].rules.value)
  {
    hide HasRules, FetchInv, IsRun, IsUneventful, After;
    DropKept(Next(s, step), steps);
  }

  // ----- Every guarded process

  /** Every process with a kill switch that lives and was not told to end is the current one. */
  ghost predicate Tracked(s: State) {
    forall c :: c in s.children && s.children[c].IsGuarded() ==> c == s.pid
  }

  /** Every such process has its rules in the table. */
  ghost predicate LiveCovered(s: State) {
    forall c :: c in s.children && s.children[c].IsGuarded() ==> HasRules(s.table, s.children[c].rules.value)
  }

  lemma TrackedCovered(s: State)
    requires Inv(s) && Tracked(s)
    ensures LiveCovered(s)
  {
    hide HasRules, FetchInv;
  }

  /** The end of an old child is reported while the current one lives and has a kill switch. */
  predicate IsLateWatch(s: State, step: Step) {
    && step.event.ChildWatch? && step.event.child != s.pid
    && s.pid != 0 && s.pid in s.children && s.children[s.pid].IsGuarded()
  }

  ghost predicate AnyGuarded(s: State) { exists c :: c in s.children && s.children[c].IsGuarded() }

  /** The daemon is started anew while such a process lives. */
  ghost predicate IsAbandonment(s: State, step: Step) { step.event.Restart? && AnyGuarded(s) }

  /** The two ways to lose track of a guarded process. */
  ghost predicate IsLoss(s: State, step: Step) { IsLateWatch(s, step) || IsAbandonment(s, step) }

  lemma CleanupTracked(s: State, env: Env)
    requires Inv(s) && Tracked(s)
    ensures Tracked(Cleanup(s, env)) && Cleanup(s, env).pid == 0
  {
    hide Cancel, Disarmed, FetchInv, GuardInv;
  }

  lemma RunTracked(s: State, env: Env)
    requires s.Valid() && s.connection.Some? && s.pid == 0 && 0 !in s.children && Tracked(s)
    ensures Tracked(RunOpenvpn(s, env).0)
  {
    hide RunOpenvpn, AttemptRules, State.ProfileOf;
    RunHasEffect(s, env);
  }

  lemma RunsTracked(s: State, step: Step)
    requires Inv(s) && Tracked(s) && Enabled(s, step) && Runs(s, step)
    ensures Tracked(Next(s, step))
  {
    hide Next, Runs, RunOpenvpn, Cleanup, Store, ProcessInv, FetchInv, GuardInv;
    BaseIsIdle(s, step);
    CleanupTracked(s, step.env);
    assert Tracked(Base(s, step));
    RunTracked(Base(s, step), step.env);
    RunsBase(s, step);
  }

  lemma WatchTracked(s: State, step: Step)
    requires Inv(s) && Tracked(s) && Enabled(s, step) && step.event.ChildWatch?
    ensures Tracked(Watched(s, step.event.child, step.event.status, step.env)) <==> !IsLateWatch(s, step)
  {
    hide MarkStale, FetchInv, GuardInv, State.Valid;
    var child, s' := step.event.child, Watched(s, step.event.child, step.event.status, step.env);
    assert s'.children == s.children - {child} && s'.pid == 0;
    if IsLateWatch(s, step) {
      assert s.pid in s'.children;
    }
  }

  lemma ConnectTracked(s: State, c: Connection, kind: Kind, env: Env)
    requires Inv(s) && Tracked(s) && !(c.valid && env.stateDirOk && IsValid(s.files, c.uuid, c.params, env.now))
    ensures Tracked(Connected(s, c, kind, env))
  {
    CleanupTracked(s, env);
    CleanupFiles(s, env);
    hide Cleanup, IsValid, ProcessInv, FetchInv, GuardInv;
  }

  lemma DisconnectedTracked(s: State, env: Env)
    requires Inv(s) && Tracked(s)
    ensures Tracked(Disconnected(s, env))
  {
    hide ProcessInv, FetchInv, GuardInv, Cleanup, MarkStale;
    MarkInv(s, env);
    assert Tracked(MarkCurrentStale(s, env));
    CleanupTracked(s, env);
    CleanupTracked(MarkCurrentStale(s, env), env);
  }

  /** The other steps that do not touch the current process. */
  lemma SamePidTracked(s: State, s': State, step: Step)
    requires Tracked(s) && Quiet(s, s', step) && s'.pid == s.pid
    ensures Tracked(s')
  {
    hide KeepsTable, DropsTable;
  }

  lemma FetchPid(s: State, id: nat, config: Option<string>, step: Step)
    requires s.Valid() && Enabled(s, step) && step.event == FetchDone(id, config) && !Runs(s, step)
    ensures Fetched(s, id, config, step.env).pid == s.pid
  {
    hide Exists, Store, RunOpenvpn, Disk.Completes;
  }

  lemma ExitPid(s: State, pid: nat)
    requires pid in s.children
    ensures Exit(s, pid).pid == s.pid
  {
    hide Departed;
  }

  lemma StatePid(s: State, state: VpnState)
    ensures StateChangedTo(s, state).pid == s.pid
  {
  }

  lemma TimeoutPid(s: State, env: Env)
    ensures TimedOut(s, env).pid == s.pid
  {
    hide MarkStale;
  }

  /** A step keeps every guarded process the current one if and only if it is none of the two. */
  lemma StepTracked(s: State, step: Step)
    requires Inv(s) && Tracked(s) && Enabled(s, step)
    ensures Tracked(Next(s, step)) <==> !IsLoss(s, step)
  {
    hide Connected, Disconnected, Fetched, Watched, TimedOut, Cleanup, Restarted, Exit, StateChangedTo, ProcessInv,
      FetchInv, GuardInv, Tracked, Quiet, Runs, IsValid, AnyGuarded;
    if Runs(s, step) {
      RunsTracked(s, step);
      NotLate(s, step);
    } else {
      UnlessSuperseding(s, step);
      match step.event
      case Connect(c, kind) =>
        NotRunning(s, step);
        ConnectTracked(s, c, kind, step.env);
      case Disconnect => DisconnectedTracked(s, step.env);
      case FetchDone(id, config) =>
        FetchPid(s, id, config, step);
        SamePidTracked(s, Next(s, step), step);
      case ChildWatch(child, status) => WatchTracked(s, step);
      case ConnectTimeout =>
        TimeoutPid(s, step.env);
        SamePidTracked(s, Next(s, step), step);
      case Dispose => CleanupTracked(s, step.env);
      case Restart => RestartTracked(s, step.env);
      case ChildExit(pid) =>
        ExitPid(s, pid);
        SamePidTracked(s, Next(s, step), step);
      case StateChanged(state) =>
        StatePid(s, state);
        SamePidTracked(s, Next(s, step), step);
    }
  }

  lemma NotLate(s: State, step: Step)
    requires s.Valid() && Enabled(s, step) && Runs(s, step)
    ensures !IsLoss(s, step)
  {
  }

  lemma RestartTracked(s: State, env: Env)
    requires ProcessInv(s)
    ensures Tracked(Restarted(s, env)) <==> !AnyGuarded(s)
  {
    var s' := Restarted(s, env);
    if c :| c in s.children && s.children[c].IsGuarded() {
      assert c in s'.children && s'.children[c].IsGuarded();
    }
  }

  /**
   * One step away from such a state, a guarded process is without its rules exactly after a restart that
   * deletes the table.
   */
  lemma StepCovered(s: State, step: Step)
    requires Inv(s) && Tracked(s) && Enabled(s, step)
    ensures LiveCovered(Next(s, step)) <==> !(IsAbandonment(s, step) && step.env.cleanupDeletes)
  {
    hide Next, HasRules, FetchInv, Quiet, AnyGuarded;
    StepTracked(s, step);
    if !IsLoss(s, step) {
      StepInv(s, step);
      TrackedCovered(Next(s, step));
    } else if step.event.Restart? {
      RestartCovered(s, step);
    } else {
      LateWatchCovered(s, step);
    }
  }

  lemma RestartCovered(s: State, step: Step)
    requires Inv(s) && Tracked(s) && Enabled(s, step) && step.event.Restart? && AnyGuarded(s)
    ensures LiveCovered(Next(s, step)) <==> !step.env.cleanupDeletes
  {
    TrackedCovered(s);
    RestartedIs(s, step.env);
    NextRestarted(s, step);
    hide HasRules, ProcessInv, FetchInv, GuardInv, Tracked, Next, Restarted, Orphans, LiveCovered, AnyGuarded;
    OrphansCovered(s, Restarted(s, step.env));
  }

  /** The processes that a restart leaves behind are covered exactly if the table stays. */
  lemma OrphansCovered(s: State, s': State)
    requires LiveCovered(s) && AnyGuarded(s) && s'.children == Orphans(s.children)
    ensures s'.table == s.table ==> LiveCovered(s')
    ensures s'.table == None ==> !LiveCovered(s')
  {
    hide HasRules, Orphans;
    OrphansKeep(s.children);
    var c :| c in s.children && s.children[c].IsGuarded();
    NothingHasRules(s.children[c].rules.value);
  }

  lemma NextRestarted(s: State, step: Step)
    requires s.Valid() && Enabled(s, step) && step.event.Restart?
    ensures Next(s, step) == Restarted(s, step.env)
  {
    hide Restarted, Connected, Disconnected, Fetched, Watched, TimedOut, StateChangedTo, Exit, Cleanup;
  }

  lemma RestartedIs(s: State, env: Env)
    ensures Restarted(s, env).table == Disarmed(s.table, env.cleanupDeletes)
    ensures Restarted(s, env).children == Orphans(s.children)
  {
    hide Orphans;
  }

  lemma OrphansKeep(children: map<nat, Child>)
    ensures forall c :: c in Orphans(children) ==>
              && c in children && children[c].IsLive() == Orphans(children)[c].IsLive()
              && children[c].rules == Orphans(children)[c].rules
    ensures forall c :: c in children && children[c].IsLive() ==> c in Orphans(children)
  {
  }

  lemma NothingHasRules(r: Ruleset)
    ensures !HasRules(None, r)
  {
  }

  lemma LateWatchCovered(s: State, step: Step)
    requires Inv(s) && Tracked(s) && Enabled(s, step) && IsLateWatch(s, step)
    ensures LiveCovered(Next(s, step))
  {
    hide HasRules, FetchInv, Watched;
    TrackedCovered(s);
    WatchedKeeps(s, step.event.child, step.event.status, step.env);
  }

  lemma WatchedKeeps(s: State, child: nat, status: Status, env: Env)
    ensures Watched(s, child, status, env).table == s.table
    ensures Watched(s, child, status, env).children == s.children - {child}
  {
    hide MarkStale;
  }

  /** No step of the run loses track. */
  ghost predicate NeverLost(s: State, steps: seq<Step>)
    requires s.Valid() && IsRun(s, steps)
    decreases |steps|
  {
    steps == [] || (!IsLoss(s, steps[0]) && NeverLost(Next(s, steps[0]), steps[1..]))
  }

  /** In every state of the run every guarded process is the current one. */
  ghost predicate AlwaysTracked(s: State, steps: seq<Step>)
    requires s.Valid() && IsRun(s, steps)
    decreases |steps|
  {
    Tracked(s) && (steps == [] || AlwaysTracked(Next(s, steps[0]), steps[1..]))
  }

  /** Over a whole run the two are the same. */
  lemma {:induction false} RunTrackedExactly(s: State, steps: seq<Step>)
    requires Inv(s) && Tracked(s) && IsRun(s, steps)
    ensures AlwaysTracked(s, steps) <==> NeverLost(s, steps)
    decreases |steps|
  {
    hide ProcessInv, FetchInv, GuardInv, Next, Enabled, Tracked, IsLoss;
    if steps != [] {
      StepInv(s, steps[0]);
      StepTracked(s, steps[0]);
      if Tracked(Next(s, steps[0])) {
        RunTrackedExactly(Next(s, steps[0]), steps[1..]);
      } else {
        NotAlwaysTracked(Next(s, steps[0]), steps[1..]);
      }
    }
  }

  lemma NotAlwaysTracked(s: State, steps: seq<Step>)
    requires s.Valid() && IsRun(s, steps) && !Tracked(s)
    ensures !AlwaysTracked(s, steps)
  {
  }

  /** In every run without such a step, every live process with a kill switch is covered by the table. */
  lemma {:induction false} RunCoversLive(s: State, steps: seq<Step>)
    requires Inv(s) && Tracked(s) && IsRun(s, steps) && NeverLost(s, steps)
    ensures LiveCovered(After(s, steps)) && Tracked(After(s, steps))
    decreases |steps|
  {
    hide ProcessInv, FetchInv, GuardInv, Next, Enabled, Tracked, IsLoss, LiveCovered;
    if steps == [] {
      TrackedCovered(s);
    } else {
      StepInv(s, steps[0]);
      StepTracked(s, steps[0]);
      RunCoversLive(Next(s, steps[0]), steps[1..]);
    }
  }

  // A discipline under which no report is late.

  ghost predicate AtMostOneWatched(s: State) {
    forall c, d :: c in s.children && d in s.children && s.children[c].watched && s.children[d].watched ==> c == d
  }

  ghost predicate NoneWatched(s: State) { forall c :: c in s.children ==> !s.children[c].watched }

  /** No process is spawned before the end of every earlier one has been reported. */
  ghost predicate WatchesFirst(s: State, steps: seq<Step>)
    requires s.Valid() && IsRun(s, steps)
    decreases |steps|
  {
    steps == [] || ((Spawns(s, steps[0]) ==> NoneWatched(s)) && WatchesFirst(Next(s, steps[0]), steps[1..]))
  }

  /** The daemon is not restarted while a guarded process lives. */
  ghost predicate NeverAbandons(s: State, steps: seq<Step>)
    requires s.Valid() && IsRun(s, steps)
    decreases |steps|
  {
    steps == [] || (!IsAbandonment(s, steps[0]) && NeverAbandons(Next(s, steps[0]), steps[1..]))
  }

  lemma StepAtMostOne(s: State, step: Step)
    requires Inv(s) && Enabled(s, step) && AtMostOneWatched(s) && (Spawns(s, step) ==> NoneWatched(s))
    ensures AtMostOneWatched(Next(s, step))
  {
    hide Next, Base, Runs, RunOpenvpn, FetchInv, GuardInv, AttemptRules, State.ProfileOf, KeepsTable, DropsTable;
    if Supersedes(s, step) {
      BaseIsIdle(s, step);
      BaseQuiet(s, step);
      RunsBase(s, step);
      RunHasEffect(Base(s, step), step.env);
    } else {
      UnlessSuperseding(s, step);
    }
  }

  lemma NeverLate(s: State, step: Step)
    requires Inv(s) && AtMostOneWatched(s) && Enabled(s, step)
    ensures !IsLateWatch(s, step)
  {
    hide FetchInv, GuardInv;
  }

  /** If every earlier end is reported before the next spawn, no report is late. */
  lemma {:induction false} WatchingFirst(s: State, steps: seq<Step>)
    requires Inv(s) && AtMostOneWatched(s) && IsRun(s, steps) && WatchesFirst(s, steps) && NeverAbandons(s, steps)
    ensures NeverLost(s, steps)
    decreases |steps|
  {
    hide ProcessInv, FetchInv, GuardInv, Next, Enabled, AtMostOneWatched, NoneWatched, Spawns, IsLateWatch,
      IsAbandonment;
    if steps != [] {
      StepInv(s, steps[0]);
      NeverLate(s, steps[0]);
      StepAtMostOne(s, steps[0]);
      WatchingFirst(Next(s, steps[0]), steps[1..]);
    }
  }

  // ----- Where it ends

  /**
   * A late report makes the plugin forget the guarded process that lives. The disconnect that follows leaves
   * it alone, and deletes the table over it exactly when no drop is pending by then.
   */
  lemma LateWatchUnguards(s: State, step: Step, disconnect: Step)
    requires Inv(s) && Enabled(s, step) && IsLateWatch(s, step)
    requires disconnect.event.Disconnect? && disconnect.env.cleanupDeletes && Enabled(Next(s, step), disconnect)
    ensures var t, u := Next(s, step), Next(Next(s, step), disconnect);
            && s.pid in u.children && u.children[s.pid].IsGuarded()
            && u.table == (if t.unexpectedDrop then s.table else None)
            && (!t.unexpectedDrop ==> !LiveCovered(u))
            && (t.unexpectedDrop <==> s.unexpectedDrop || (s.started && step.event.status.IsFailure()))
  {
    hide MarkStale, Cancel, FetchInv, Next, HasRules;
    var t := Watched(s, step.event.child, step.event.status, step.env);
    var u := Disconnected(t, disconnect.env);
    WatchIs(s, step);
    DisconnectIs(t, disconnect);
    ForgottenStays(s, step.event.child, step.event.status, step.env, disconnect.env);
    NothingHasRules(s.children[s.pid].rules.value);
  }

  lemma WatchIs(s: State, step: Step)
    requires s.Valid() && Enabled(s, step) && step.event.ChildWatch?
    ensures Next(s, step) == Watched(s, step.event.child, step.event.status, step.env)
  {
    hide Watched;
  }

  lemma DisconnectIs(s: State, step: Step)
    requires s.Valid() && Enabled(s, step) && step.event.Disconnect?
    ensures Next(s, step) == Disconnected(s, step.env)
  {
    hide Disconnected;
  }

  lemma ForgottenStays(s: State, child: nat, status: Status, env: Env, env': Env)
    requires s.pid != 0 && s.pid != child && s.pid in s.children
    ensures var t, u := Watched(s, child, status, env), Disconnected(Watched(s, child, status, env), env');
            && s.pid in u.children && u.children[s.pid] == s.children[s.pid]
            && t.unexpectedDrop == (s.unexpectedDrop || (s.started && status.IsFailure()))
            && u.table ==
               if s.killSwitchActive && !t.unexpectedDrop then Disarmed(s.table, env'.cleanupDeletes) else s.table
  {
    hide MarkStale, Cancel, State.Valid, Disarmed;
  }

  /** The state behind a connect that starts a process from the cache. */
  lemma ConnectSpawns(s: State, c: Connection, env: Env, p: nat)
    requires Inv(s) && TableExact(s) && env.Deletes() && env.spawned == Some(p) && p != 0 && p !in s.children
    requires c.valid && c.WantsKillSwitch() && env.stateDirOk && env.openvpnFound && env.nft.Loads()
    requires IsValid(s.files, c.uuid, c.params, env.now) && !s.unexpectedDrop
    requires Generated(env.net, s.ProfileOf(c.uuid), env.resolvConf, c.AllowsLan()).Some?
    ensures var s' := Connected(s, c, Plain, env);
            && s'.pid == p && p in s'.children && s'.children[p].IsGuarded()
            && (forall q :: q in s'.children ==> q == p || q in s.children)
            && (forall q :: q in s.children ==>
                  q in s'.children && s'.children[q].exited == s.children[q].exited &&
                    s'.children[q].watched == s.children[q].watched)
            && !s'.unexpectedDrop && !s'.started && s'.files == s.files
  {
    hide Generated, IsValid, Cancel, Nft.Loads, Armed, Disarmed, FetchInv;
    ConnectSplit(s, c, Plain, env);
    var base := ConnectBase(s, c, env);
    assert base.ProfileOf(base.uuid.value) == s.ProfileOf(c.uuid);
  }

  lemma RunCons(s: State, step: Step, rest: seq<Step>)
    requires s.Valid() && Enabled(s, step) && IsRun(Next(s, step), rest)
    ensures IsRun(s, [step] + rest) && After(s, [step] + rest) == After(Next(s, step), rest)
  {
    hide Next, Enabled;
    assert ([step] + rest)[1..] == rest;
  }

  /** The circumstances in which a connect from the cache starts a guarded process. */
  ghost predicate CanSpawn(c: Connection, env: Env, files: Files) {
    && c.valid && c.WantsKillSwitch() && env.Deletes() && env.stateDirOk && env.openvpnFound && env.nft.Loads()
    && IsValid(files, c.uuid, c.params, env.now)
    && Generated(env.net, Fresh(None, files).ProfileOf(c.uuid), env.resolvConf, c.AllowsLan()).Some?
  }

  /** A connection that is reconnected while its first process has yet to end. */
  function LateWatchRun(c: Connection, env: Env): (steps: seq<Step>) {
    var quiet := env.(spawned := None);
    [Step(Connect(c, Plain), env.(spawned := Some(1)))]
    + ([Step(Connect(c, Plain), env.(spawned := Some(2)))] + LateWatchRest(quiet))
  }

  function LateWatchRest(quiet: Env): (steps: seq<Step>) {
    [Step(ChildExit(1), quiet)] + ([Step(ChildWatch(1, Signaled), quiet)] + ([Step(Disconnect, quiet)] + []))
  }

  /** Any connection with a kill switch and a valid profile can run into it: five steps from the start of the daemon. */
  lemma LateWatchRunUnguards(c: Connection, env: Env, files: Files)
    requires CanSpawn(c, env, files)
    ensures var s, steps := Fresh(None, files), LateWatchRun(c, env);
            && IsRun(s, steps)
            && var s' := After(s, steps);
               2 in s'.children && s'.children[2].IsGuarded() && s'.table == None && !LiveCovered(s')
  {
    hide Generated, IsValid, Nft.Loads, Connected, IsRun, After;
    var s0, quiet := Fresh(None, files), env.(spawned := None);
    var first, second := Step(Connect(c, Plain), env.(spawned := Some(1))),
                         Step(Connect(c, Plain), env.(spawned := Some(2)));
    FreshInv(None, files);
    ConnectSpawns(s0, c, first.env, 1);
    ConnectInv(s0, c, Plain, first.env);
    StepExact(s0, first);
    var s1 := Next(s0, first);
    ConnectSpawns(s1, c, second.env, 2);
    ConnectInv(s1, c, Plain, second.env);
    var s2 := Next(s1, second);
    assert s1.children[1].watched by {
      ProcessOf(s1);
    }
    hide Next, Enabled, TableExact;
    LateWatchEnd(s2, quiet);
    RunCons(s1, second, LateWatchRest(quiet));
    RunCons(s0, first, [second] + LateWatchRest(quiet));
  }

  lemma ProcessOf(s: State)
    requires Inv(s) && s.pid != 0
    ensures s.pid in s.children && s.children[s.pid].watched
  {
  }

  lemma LateWatchEnd(s: State, quiet: Env)
    requires Inv(s) && quiet.spawned.None? && quiet.Deletes()
    requires s.pid == 2 && 2 in s.children && s.children[2].IsGuarded() && 1 in s.children && !s.children[1].exited &&
             s.children[1].watched
    requires !s.unexpectedDrop && !s.started
    ensures IsRun(s, LateWatchRest(quiet))
    ensures var s' := After(s, LateWatchRest(quiet));
            2 in s'.children && s'.children[2].IsGuarded() && s'.table == None && !LiveCovered(s')
  {
    hide Watched, Disconnected, HasRules, FetchInv, GuardInv;
    var exit, watch, disconnect := Step(ChildExit(1), quiet), Step(ChildWatch(1, Signaled), quiet),
                                   Step(Disconnect, quiet);
    ExitInv(s, 1);
    var s1 := Exit(s, 1);
    assert Enabled(s, exit) && Next(s, exit) == s1;
    assert Enabled(s1, watch) && IsLateWatch(s1, watch);
    var s2 := Next(s1, watch);
    assert Enabled(s2, disconnect);
    LateWatchUnguards(s1, watch, disconnect);
    assert IsRun(Next(s2, disconnect), []);
    hide Next, Enabled, Exit, IsLateWatch, LiveCovered;
    RunCons(s2, disconnect, []);
    RunCons(s1, watch, [disconnect] + []);
    RunCons(s, exit, [watch] + ([disconnect] + []));
  }

  /** Two steps: a connect, and a new daemon that deletes what it takes for a left-over table. */
  function AbandonRun(c: Connection, env: Env): (steps: seq<Step>) {
    [Step(Connect(c, Plain), env.(spawned := Some(1)))] + ([Step(Restart, env.(spawned := None))] + [])
  }

  /** A daemon that ends without disarming leaves a process behind, from which its successor takes the table away. */
  lemma AbandonRunUnguards(c: Connection, env: Env, files: Files)
    requires CanSpawn(c, env, files)
    ensures var s, steps := Fresh(None, files), AbandonRun(c, env);
            && IsRun(s, steps)
            && var s' := After(s, steps);
               1 in s'.children && s'.children[1].IsGuarded() && s'.table == None && !LiveCovered(s')
  {
    hide Generated, IsValid, Nft.Loads, Connected, IsRun, After;
    var s0 := Fresh(None, files);
    var first, restart := Step(Connect(c, Plain), env.(spawned := Some(1))), Step(Restart, env.(spawned := None));
    FreshInv(None, files);
    ConnectSpawns(s0, c, first.env, 1);
    var s1 := Next(s0, first);
    AbandonedStays(s1, restart, 1);
    assert IsRun(Next(s1, restart), []) by { NoSteps(Next(s1, restart)); }
    hide Next, Enabled, LiveCovered;
    RunCons(s1, restart, []);
    RunCons(s0, first, [restart] + []);
    NoSteps(Next(s1, restart));
  }

  lemma NoSteps(s: State)
    requires s.Valid()
    ensures IsRun(s, []) && After(s, []) == s
  {
  }

  lemma AbandonedStays(s: State, step: Step, c: nat)
    requires s.Valid() && step.event.Restart? && step.env.spawned.None? && step.env.cleanupDeletes
    requires c in s.children && s.children[c].IsGuarded()
    ensures Enabled(s, step)
    ensures var t := Next(s, step); c in t.children && t.children[c].IsGuarded() && t.table == None && !LiveCovered(t)
  {
    RestartedIs(s, step.env);
    NextRestarted(s, step);
    OrphansKeep(s.children);
    hide HasRules, Next, Restarted, Orphans, LiveCovered;
    NotCovered(Restarted(s, step.env), c);
  }

  lemma NotCovered(s: State, c: nat)
    requires c in s.children && s.children[c].IsGuarded() && s.table == None
    ensures !LiveCovered(s)
  {
    hide HasRules;
    NothingHasRules(s.children[c].rules.value);
  }
}
