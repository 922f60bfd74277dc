/** The plugin object: the callbacks as they update its fields, the cache directory and the packet filter in place. */
module Plugin {
  import opened Basics
  import opened Cache
  import opened KillSwitch
  import opened Nftables
  import opened Service

  class Plugin {
    const dir: StateDir
    const filter: PacketFilter

    var pid: nat
    var interactive: bool
    var started: bool
    var connection: Option<Connection>
    var fetchCancellable: Option<nat>
    var connectTimer: bool
    var uuid: Option<string>
    var killSwitchActive: bool
    var unexpectedDrop: bool

    // What the main loop keeps for the plugin: fetches in flight and watched children.
    var fetches: map<nat, Fetch>
    var nextFetch: nat
    var children: map<nat, Child>

    ghost function View(): (s: State)
      reads this, dir, filter
    {
      State(pid, interactive, started, connection, fetchCancellable, connectTimer, uuid, killSwitchActive,
        unexpectedDrop, filter.table, dir.View(), fetches, nextFetch, children)
    }

    /**
     * A new process deletes a table that an earlier one may have left behind; `running` are the processes it
     * may have left.
     */
    constructor (dir: StateDir, filter: PacketFilter, running: map<nat, Child>, env: Env)
      modifies filter
      ensures this.dir == dir && this.filter == filter
      ensures View() ==
              Fresh(Disarmed(old(filter.table), env.cleanupDeletes), old(dir.View())).(children := Orphans(running))
    {
      this.dir := dir;
      this.filter := filter;
      pid, interactive, started := 0, false, false;
      connection, fetchCancellable, connectTimer, uuid := None, None, false, None;
      killSwitchActive, unexpectedDrop := false, false;
      fetches, nextFetch, children := map[], 0, Orphans(running);
      new;
      filter.Disarm(env.cleanupDeletes);
    }

    /** Sends SIGTERM to the current process if there is one, or SIGKILL when that fails. */
    method Kill()
      modifies `children
      ensures children == Signal(old(children), pid)
    {
      if pid != 0 && pid in children {
        children := children[pid := children[pid].(signalled := true)];
      }
    }

    method CancelFetch()
      modifies `fetches, `fetchCancellable
      ensures fetches == Cancel(old(fetches), old(fetchCancellable)) && fetchCancellable == None
    {
      if fetchCancellable.Some? {
        var id := fetchCancellable.value;
        if id in fetches {
          fetches := fetches[id := fetches[id].(cancelled := true)];
        }
        fetchCancellable := None;
      }
    }

    /** Stops the timer, the fetch and the process of the current attempt. */
    method StopAttempt()
      modifies `interactive, `started, `connectTimer, `fetches, `fetchCancellable, `children, `pid
      ensures !interactive && !started && !connectTimer && fetchCancellable == None && pid == 0
      ensures fetches == Cancel(old(fetches), old(fetchCancellable))
      ensures children == Signal(old(children), old(pid))
    {
      interactive := false;
      started := false;
      connectTimer := false;
      CancelFetch();
      Kill();
      pid := 0;
    }

    method CleanupPlugin(env: Env)
      modifies this, filter
      ensures View() == Cleanup(old(View()), env)
    {
      hide Cancel, Signal, Disarmed, State.Valid;
      StopAttempt();
      DisarmUnlessDropped(env);
      connection := None;
      uuid := None;
    }

    /** After an unexpected drop the table stays. */
    method DisarmUnlessDropped(env: Env)
      modifies `killSwitchActive, filter
      ensures filter.table ==
              if old(killSwitchActive) && !unexpectedDrop then Disarmed(old(filter.table), env.cleanupDeletes)
              else old(filter.table)
      ensures killSwitchActive == (old(killSwitchActive) && unexpectedDrop)
    {
      if killSwitchActive && !unexpectedDrop {
        filter.Disarm(env.cleanupDeletes);
        killSwitchActive := false;
      }
    }

    method MarkStaleAndFail(env: Env)
      modifies dir
      ensures View() == MarkCurrentStale(old(View()), env)
    {
      if uuid.Some? {
        dir.SetStale(uuid.value, env.marksStale);
      }
    }

    method OpenvpnWatchCb(child: nat, status: Status, env: Env)
      modifies this, dir
      ensures View() == Watched(old(View()), child, status, env)
    {
      var error := status.Exited? && status.code != 0;
      var signaled := status.Stopped? || status.Signaled?;
      children := children - {child};
      pid := 0;
      connectTimer := false;
      if error || signaled {
        if !started {
          MarkStaleAndFail(env);
        } else {
          unexpectedDrop := true;
        }
      }
    }

    method ConnectTimeoutCb(env: Env)
      modifies this, dir
      ensures View() == TimedOut(old(View()), env)
    {
      connectTimer := false;
      if !started {
        Kill();
        MarkStaleAndFail(env);
      }
    }

    /** Supersedes whatever firewall state a previous attempt left behind. */
    method SupersedeFirewall(env: Env)
      modifies `killSwitchActive, `unexpectedDrop, filter
      ensures View() == Supersede(old(View()), env)
    {
      hide Disarmed, State.Valid;
      if killSwitchActive {
        filter.Disarm(env.supersedeDeletes);
      }
      killSwitchActive := false;
      unexpectedDrop := false;
    }

    method SpawnOpenvpn(env: Env, profile: Option<string>, rules: Option<Ruleset>) returns (ok: bool)
      requires View().Valid() && connection.Some? && profile == View().ProfileOf(uuid.value)
      modifies this, filter
      ensures (View(), ok) == Spawn(old(View()), env, rules)
    {
      hide Disarmed, State.ProfileOf;
      if env.spawned.None? {
        if killSwitchActive {
          filter.Disarm(env.rollbackDeletes);
          killSwitchActive := false;
        }
        return false;
      }
      pid := env.spawned.value;
      WatchChild(pid, profile, rules);
      connectTimer := true;
      return true;
    }

    /** Arms the kill switch, without which openvpn is not started. */
    method ArmAndSpawn(env: Env, profile: Option<string>) returns (ok: bool)
      requires View().Valid() && connection.Some? && profile == View().ProfileOf(uuid.value)
      modifies this, filter
      ensures (View(), ok) == ArmSpawn(old(View()), env)
    {
      hide Generated, Nft.Loads, Armed, Disarmed, Spawn;
      var allowLan := connection.value.allowLan.Some? && connection.value.allowLan.value == "yes";
      var armed, loaded := filter.Arm(env.net, profile, env.resolvConf, allowLan, env.nft);
      if !armed {
        return false;
      }
      killSwitchActive := true;
      ok := SpawnOpenvpn(env, profile, loaded);
    }

    method RunOpenvpn(env: Env) returns (ok: bool)
      requires View().Valid() && connection.Some?
      modifies this, filter
      ensures (View(), ok) == Service.RunOpenvpn(old(View()), env)
    {
      hide ArmSpawn, Spawn;
      if !env.openvpnFound {
        return false;
      }
      var configPath := uuid.value;
      var profile := if configPath in dir.config then Some(dir.config[configPath]) else None;
      SupersedeFirewall(env);
      if connection.value.killSwitch.Some? && connection.value.killSwitch.value == "yes" {
        ok := ArmAndSpawn(env, profile);
      } else {
        ok := SpawnOpenvpn(env, profile, None);
      }
    }

    /** g_child_watch_add. */
    method WatchChild(p: nat, profile: Option<string>, rules: Option<Ruleset>)
      requires uuid.Some?
      modifies `children
      ensures children == old(children)[p := Child(uuid.value, profile, rules, false, false, true)]
    {
      children := children[p := Child(uuid.value, profile, rules, false, false, true)];
    }

    method ConnectCommon(c: Connection, env: Env) returns (ok: bool)
      modifies this, filter
      ensures (View(), ok) == Service.ConnectCommon(old(View()), c, env)
    {
      hide IsValid, Service.RunOpenvpn, Cleanup;
      if !c.valid {
        return false;
      }
      CleanupPlugin(env);
      connection := Some(c);
      uuid := Some(c.uuid);
      if !env.stateDirOk {
        return false;
      }
      var hit := dir.CheckCache(c.uuid, c.params, false, env.now);
      if hit {
        ok := RunOpenvpn(env);
        return ok;
      }
      if c.apiKey.None? || c.apiKey.value == "" {
        return false;
      }
      StartFetch(c);
      return true;
    }

    /** nm_airvpn_generator_fetch_async with a new cancellable. */
    method StartFetch(c: Connection)
      modifies `fetchCancellable, `fetches, `nextFetch
      ensures fetchCancellable == Some(old(nextFetch)) && nextFetch == old(nextFetch) + 1
      ensures fetches == old(fetches)[old(nextFetch) := Fetch(c.uuid, c.params, false)]
    {
      fetchCancellable := Some(nextFetch);
      fetches := fetches[nextFetch := Fetch(c.uuid, c.params, false)];
      nextFetch := nextFetch + 1;
    }

    method RealConnect(c: Connection, env: Env) returns (ok: bool)
      modifies this, filter
      ensures View() == Connected(old(View()), c, Plain, env) && ok == Service.ConnectCommon(old(View()), c, env).1
    {
      hide Service.ConnectCommon;
      ok := ConnectCommon(c, env);
    }

    method RealConnectInteractive(c: Connection, env: Env) returns (ok: bool)
      modifies this, filter
      ensures View() == Connected(old(View()), c, Interactive, env) &&
              ok == Service.ConnectCommon(old(View()), c, env).1
    {
      hide Service.ConnectCommon;
      ok := ConnectCommon(c, env);
      if !ok {
        return false;
      }
      interactive := true;
    }

    method RealNewSecrets(c: Connection, env: Env) returns (ok: bool)
      modifies this, filter
      ensures View() == Connected(old(View()), c, NewSecrets, env) && ok == Service.ConnectCommon(old(View()), c, env).1
    {
      hide Service.ConnectCommon;
      ok := ConnectCommon(c, env);
    }

    method RealDisconnect(env: Env) returns (ok: bool)
      modifies this, dir, filter
      ensures View() == Disconnected(old(View()), env) && ok
    {
      if pid != 0 && !started && uuid.Some? {
        dir.SetStale(uuid.value, env.marksStale);
      }
      CleanupPlugin(env);
      return true;
    }

    method FetchDoneCb(id: nat, result: Option<string>, env: Env)
      requires View().Valid() && id in fetches
      modifies this, dir, filter
      ensures View() == Fetched(old(View()), id, result, env)
    {
      hide Service.RunOpenvpn, Exists, Store, Disk.Completes;
      var cancelled := fetches[id].cancelled;
      fetches := fetches - {id};
      if cancelled {
        return;
      }
      fetchCancellable := None;
      if connection.None? {
        return;
      }
      var params := connection.value.params;
      if result.Some? {
        var stored := dir.Put(uuid.value, params, result.value, env.now, env.disk);
        if !stored {
          return;
        }
      } else {
        var hit := dir.CheckCache(uuid.value, params, true, env.now);
        if !hit {
          return;
        }
      }
      var ok := RunOpenvpn(env);
    }

    method StateChangedCb(state: VpnState)
      modifies this
      ensures View() == StateChangedTo(old(View()), state)
    {
      match state
      case Started =>
        started := true;
        connectTimer := false;
      case Unknown | Init | Shutdown | Stopping | VpnStopped =>
        connectTimer := false;
        connection := None;
      case Starting =>
    }

    method DisposeObject(env: Env)
      modifies this, filter
      ensures View() == Cleanup(old(View()), env)
    {
      CleanupPlugin(env);
    }
  }
}
