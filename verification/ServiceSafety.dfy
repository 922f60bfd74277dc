/** What holds over every run of the daemon. */
module ServiceSafety {
  import opened Basics
  import opened Cache
  import opened KillSwitch
  import opened Nftables
  import opened Service

  // ----- The invariant

  /** The table is the given one, with its rules behind whatever was left in it. */
  ghost predicate HasRules(table: Table, r: Ruleset) {
    table.Some? && exists older :: table.value == r.(rules := older + r.rules)
  }

  ghost predicate ProcessInv(s: State) {
    && 0 !in s.children
    && (s.pid != 0 ==> s.pid in s.children && s.children[s.pid].watched && s.uuid == Some(s.children[s.pid].uuid))
    && (s.timer ==> s.pid != 0)
  }

  /** At most one fetch that is not cancelled is in flight; it is the current one, and nothing else goes on. */
  ghost predicate FetchInv(s: State) {
    && (forall id :: id in s.fetches ==> id < s.nextFetch && (!s.fetches[id].cancelled ==> s.fetch == Some(id)))
    && (s.fetch.Some? ==> s.fetch.value in s.fetches && !s.fetches[s.fetch.value].cancelled)
    && (s.fetch.Some? ==> s.pid == 0)
    && (s.fetch.Some? && s.connection.Some? ==>
          s.fetches[s.fetch.value].params == s.connection.value.params &&
            s.fetches[s.fetch.value].uuid == s.connection.value.uuid)
  }

  /** The kill switch of the current attempt is armed. */
  ghost predicate GuardInv(s: State) {
    && (s.killSwitchActive ==> s.table.Some?)
    && (s.pid != 0 && s.pid in s.children ==>
          && s.killSwitchActive == s.children[s.pid].rules.Some?
          && (s.killSwitchActive ==> HasRules(s.table, s.children[s.pid].rules.value)))
  }

  ghost predicate Inv(s: State) { s.Valid() && ProcessInv(s) && FetchInv(s) && GuardInv(s) }

  lemma FreshInv(table: Table, files: Files)
    ensures Inv(Fresh(table, files))
  {
  }

  lemma RestartedInv(s: State, env: Env)
    requires Inv(s)
    ensures Inv(Restarted(s, env))
  {
  }

  lemma CleanupInv(s: State, env: Env)
    requires Inv(s)
    ensures Inv(Cleanup(s, env)) && Cleanup(s, env).fetch.None? && Cleanup(s, env).pid == 0
  {
    hide HasRules;
  }

  lemma MarkInv(s: State, env: Env)
    requires Inv(s)
    ensures Inv(MarkCurrentStale(s, env))
  {
    hide HasRules, MarkStale;
  }

  lemma SpawnInv(s: State, env: Env, rules: Option<Ruleset>)
    requires Inv(s) && s.connection.Some? && s.pid == 0 && s.fetch.None?
    requires env.spawned.Some? ==> env.spawned.value != 0
    requires s.killSwitchActive == rules.Some? && (rules.Some? ==> HasRules(s.table, rules.value))
    ensures Inv(Spawn(s, env, rules).0)
  {
    hide HasRules;
  }

  lemma ArmedHasRules(table: Table, rules: Option<Ruleset>, nft: Nft)
    requires rules.Some? && nft.Loads()
    ensures HasRules(Armed(table, rules, nft), rules.value)
  {
    var r := rules.value;
    var none: seq<FilterRule> := [];
    assert none + r.rules == r.rules;
    if table.None? {
      assert Armed(table, rules, nft).value == r.(rules := none + r.rules);
    } else {
      assert Armed(table, rules, nft).value == r.(rules := table.value.rules + r.rules);
    }
  }

  lemma ArmSpawnInv(s: State, env: Env)
    requires Inv(s) && s.connection.Some? && s.pid == 0 && s.fetch.None?
    requires env.spawned.Some? ==> env.spawned.value != 0
    ensures Inv(ArmSpawn(s, env).0)
  {
    hide HasRules, Generated, Armed, Nft.Loads, Spawn;
    var rules := WantedRules(s, env);
    if rules.Some? && env.nft.Loads() {
      ArmedHasRules(s.table, rules, env.nft);
      SpawnInv(s.(table := Armed(s.table, rules, env.nft), killSwitchActive := true), env, rules);
    }
  }

  lemma RunInv(s: State, env: Env)
    requires Inv(s) && s.connection.Some? && s.pid == 0 && s.fetch.None?
    requires env.spawned.Some? ==> env.spawned.value != 0
    ensures Inv(RunOpenvpn(s, env).0)
  {
    hide ArmSpawn, Spawn, HasRules;
    var s1 := Supersede(s, env);
    assert Inv(s1);
    ArmSpawnInv(s1, env);
    if !s.connection.value.WantsKillSwitch() {
      SpawnInv(s1, env, None);
    }
  }

  lemma ConnectInv(s: State, c: Connection, kind: Kind, env: Env)
    requires Inv(s) && (env.spawned.Some? ==> env.spawned.value != 0)
    ensures Inv(Connected(s, c, kind, env))
  {
    hide RunOpenvpn, Cleanup, HasRules, IsValid;
    CleanupInv(s, env);
    var s1 := Cleanup(s, env).(connection := Some(c), uuid := Some(c.uuid));
    assert Inv(s1);
    RunInv(s1, env);
  }

  lemma FetchedInv(s: State, id: nat, config: Option<string>, env: Env)
    requires Inv(s) && id in s.fetches && (env.spawned.Some? ==> env.spawned.value != 0)
    ensures Inv(Fetched(s, id, config, env))
  {
    hide RunOpenvpn, HasRules, Exists, Store, Disk.Completes;
    var s1 := s.(fetches := s.fetches - {id});
    if !s.fetches[id].cancelled {
      var s2 := s1.(fetch := None);
      assert Inv(s2);
      if s2.connection.Some? {
        RunInv(s2, env);
        if config.Some? {
          var files := Store(s2.files, s2.uuid.value, s2.connection.value.params, config.value, env.now, env.disk);
          RunInv(s2.(files := files), env);
        }
      }
    }
  }

  lemma DisconnectedInv(s: State, env: Env)
    requires Inv(s)
    ensures Inv(Disconnected(s, env))
  {
    hide Inv, Cleanup, MarkCurrentStale;
    MarkInv(s, env);
    CleanupInv(s, env);
    CleanupInv(MarkCurrentStale(s, env), env);
  }

  lemma WatchedInv(s: State, child: nat, status: Status, env: Env)
    requires Inv(s)
    ensures Inv(Watched(s, child, status, env))
  {
    hide HasRules, MarkCurrentStale;
    var s1 := s.(children := s.children - {child}, pid := 0, timer := false);
    assert Inv(s1);
    MarkInv(s1, env);
  }

  lemma TimedOutInv(s: State, env: Env)
    requires Inv(s)
    ensures Inv(TimedOut(s, env))
  {
    hide HasRules, MarkCurrentStale;
    var s1 := s.(timer := false, children := Signal(s.children, s.pid));
    assert Inv(s1);
    MarkInv(s1, env);
  }

  lemma StateChangedInv(s: State, state: VpnState)
    requires Inv(s)
    ensures Inv(StateChangedTo(s, state))
  {
    hide HasRules;
  }

  lemma ExitInv(s: State, pid: nat)
    requires Inv(s) && pid in s.children
    ensures Inv(Exit(s, pid))
  {
    DepartedFacts(s.children, pid);
    hide Departed, Inv;
    SameButChildren(s, Exit(s, pid));
  }

  lemma DepartedFacts(children: map<nat, Child>, pid: nat)
    requires pid in children
    ensures var children' := Departed(children, pid);
            && children'.Keys <= children.Keys
            && forall c :: c in children && children[c].watched ==>
                 c in children' && children'[c] == children[c].(exited := children'[c].exited)
  {
  }

  lemma SameButChildren(s: State, s': State)
    requires Inv(s) && s' == s.(children := s'.children) && s'.children.Keys <= s.children.Keys
    requires forall c :: c in s.children && s.children[c].watched ==>
               c in s'.children && s'.children[c] == s.children[c].(exited := s'.children[c].exited)
    ensures Inv(s')
  {
    hide HasRules;
  }

  /** Every step keeps the invariant. */
  lemma StepInv(s: State, step: Step)
    requires Inv(s) && Enabled(s, step)
    ensures Inv(Next(s, step))
  {
    hide Connected, Disconnected, Fetched, Watched, TimedOut, StateChangedTo, Exit, Cleanup, Restarted, ProcessInv,
      FetchInv, GuardInv;
    var env := step.env;
    match step.event
    case Connect(c, kind) => ConnectInv(s, c, kind, env);
    case Disconnect => DisconnectedInv(s, env);
    case FetchDone(id, config) => FetchedInv(s, id, config, env);
    case ChildExit(pid) => ExitInv(s, pid);
    case ChildWatch(child, status) => WatchedInv(s, child, status, env);
    case ConnectTimeout => TimedOutInv(s, env);
    case StateChanged(state) => StateChangedInv(s, state);
    case Dispose => CleanupInv(s, env);
    case Restart => RestartedInv(s, env);
  }

  /**
   * In every state that a run reaches, the kill switch of the current attempt is loaded, and the fetches are in
   * order.
   */
  lemma {:induction false} RunKeepsInv(s: State, steps: seq<Step>)
    requires Inv(s) && IsRun(s, steps)
    ensures Inv(After(s, steps))
    decreases |steps|
  {
    hide ProcessInv, FetchInv, GuardInv, Next, Enabled;
    if steps != [] {
      StepInv(s, steps[0]);
      RunKeepsInv(Next(s, steps[0]), steps[1..]);
    }
  }

  /**
   * From the start of the daemon, whatever table and files it finds: an attempt with a kill switch has its
   * rules loaded.
   */
  lemma ReachableGuard(table: Table, files: Files, steps: seq<Step>)
    requires IsRun(Fresh(table, files), steps)
    ensures var s := After(Fresh(table, files), steps);
            && (s.killSwitchActive ==> s.table.Some?)
            && (s.pid != 0 ==> s.pid in s.children)
            && (s.pid != 0 && s.children[s.pid].rules.Some? ==>
               s.killSwitchActive && HasRules(s.table, s.children[s.pid].rules.value))
  {
    FreshInv(table, files);
    RunKeepsInv(Fresh(table, files), steps);
    hide After, IsRun, HasRules;
  }

  /**
   * From the start of the daemon: at most one live fetch, nothing else running beside it, and no timer without
   * a process.
   */
  lemma ReachableFetches(table: Table, files: Files, steps: seq<Step>, i: nat, j: nat)
    requires IsRun(Fresh(table, files), steps)
    ensures var s := After(Fresh(table, files), steps);
            && (i in s.fetches && j in s.fetches && !s.fetches[i].cancelled && !s.fetches[j].cancelled ==> i == j)
            && (i in s.fetches && !s.fetches[i].cancelled ==> s.fetch == Some(i) && s.pid == 0 && !s.timer)
            && (s.timer ==> s.pid != 0)
  {
    FreshInv(table, files);
    RunKeepsInv(Fresh(table, files), steps);
    hide After, IsRun, GuardInv;
  }
}
