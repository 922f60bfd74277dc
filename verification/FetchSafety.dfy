/** What becomes of the requests to the generator, over every run of the daemon. */
module FetchSafety {
  import opened Basics
  import opened Cache
  import opened KillSwitch
  import opened Service
  import opened ServiceEffects
  import opened ServiceSafety

  // ----- Requests that come too late

  /** The request was made earlier, and is answered, cancelled, or left without its connection. */
  ghost predicate IsDoomed(s: State, id: nat) {
    id < s.nextFetch && (id in s.fetches ==> s.fetches[id].cancelled || s.connection.None?)
  }

  lemma CleanupDooms(s: State, env: Env, id: nat)
    requires Inv(s) && id < s.nextFetch
    ensures var s' := Cleanup(s, env); s'.nextFetch == s.nextFetch && (id in s'.fetches ==> s'.fetches[id].cancelled)
  {
    hide GuardInv, ProcessInv, Disarmed;
  }

  lemma RunKeepsDoomed(s: State, env: Env, id: nat)
    requires s.Valid() && s.connection.Some? && IsDoomed(s, id)
    ensures IsDoomed(RunOpenvpn(s, env).0, id)
  {
    hide RunOpenvpn;
    RunHasEffect(s, env);
  }

  lemma ConnectDooms(s: State, c: Connection, kind: Kind, env: Env, id: nat)
    requires Inv(s) && IsDoomed(s, id)
    ensures IsDoomed(Connected(s, c, kind, env), id)
  {
    CleanupDooms(s, env, id);
    hide Cleanup, RunOpenvpn, IsValid, Inv;
    var base := ConnectBase(s, c, env);
    RunKeepsDoomed(base, env, id);
  }

  lemma FetchedKeepsDoomed(s: State, done: nat, config: Option<string>, env: Env, id: nat)
    requires Inv(s) && IsDoomed(s, id) && done in s.fetches
    ensures IsDoomed(Fetched(s, done, config, env), id)
  {
    hide RunOpenvpn, Exists, Store, ProcessInv, GuardInv, Disk.Completes;
    if !s.fetches[done].cancelled && s.connection.Some? {
      var s2 := s.(fetches := s.fetches - {done}, fetch := None);
      RunKeepsDoomed(s2, env, id);
      if config.Some? {
        var files := Store(s2.files, s2.uuid.value, s2.connection.value.params, config.value, env.now, env.disk);
        RunKeepsDoomed(s2.(files := files), env, id);
      }
    }
  }

  lemma DisconnectDooms(s: State, env: Env, id: nat)
    requires Inv(s) && id < s.nextFetch
    ensures IsDoomed(Disconnected(s, env), id)
  {
    CleanupDooms(s, env, id);
    MarkInv(s, env);
    CleanupDooms(MarkCurrentStale(s, env), env, id);
    hide Cleanup, Inv;
  }

  lemma WatchKeepsDoomed(s: State, child: nat, status: Status, env: Env, id: nat)
    requires IsDoomed(s, id)
    ensures IsDoomed(Watched(s, child, status, env), id)
  {
    hide MarkStale, State.Valid;
  }

  lemma TimeoutKeepsDoomed(s: State, env: Env, id: nat)
    requires IsDoomed(s, id)
    ensures IsDoomed(TimedOut(s, env), id)
  {
    hide MarkStale, State.Valid, Signal;
  }

  lemma ReportKeepsDoomed(s: State, pid: nat, state: VpnState, id: nat)
    requires IsDoomed(s, id)
    ensures pid in s.children ==> IsDoomed(Exit(s, pid), id)
    ensures IsDoomed(StateChangedTo(s, state), id)
  {
    hide State.Valid;
  }

  lemma StepKeepsDoomed(s: State, step: Step, id: nat)
    requires Inv(s) && Enabled(s, step) && IsDoomed(s, id) && !step.event.Restart?
    ensures IsDoomed(Next(s, step), id)
  {
    CleanupDooms(s, step.env, id);
    hide Connected, Fetched, Disconnected, Cleanup, Watched, TimedOut, StateChangedTo, Exit, ProcessInv, FetchInv,
      GuardInv;
    if step.event.Dispose? {
      return;
    }
    hide IsDoomed;
    match step.event
    case Connect(c, kind) => ConnectDooms(s, c, kind, step.env, id);
    case FetchDone(done, config) => FetchedKeepsDoomed(s, done, config, step.env, id);
    case Disconnect => DisconnectDooms(s, step.env, id);
    case ChildExit(pid) => ReportKeepsDoomed(s, pid, Unknown, id);
    case ChildWatch(child, status) => WatchKeepsDoomed(s, child, status, step.env, id);
    case ConnectTimeout => TimeoutKeepsDoomed(s, step.env, id);
    case StateChanged(state) => ReportKeepsDoomed(s, 0, state, id);
    case _ =>
  }

  predicate NoRestart(steps: seq<Step>) { forall i :: 0 <= i < |steps| ==> !steps[i].event.Restart? }

  lemma {:induction false} RunKeepsDoomedAll(s: State, steps: seq<Step>, id: nat)
    requires Inv(s) && IsRun(s, steps) && IsDoomed(s, id) && NoRestart(steps)
    ensures IsDoomed(After(s, steps), id) && Inv(After(s, steps))
    decreases |steps|
  {
    hide ProcessInv, FetchInv, GuardInv, Next, Enabled, IsDoomed;
    if steps != [] {
      StepInv(s, steps[0]);
      StepKeepsDoomed(s, steps[0], id);
      RunKeepsDoomedAll(Next(s, steps[0]), steps[1..], id);
    }
  }

  /**
   * A fetch that was once cancelled, or whose connection was once cleared, never stores a profile, starts a process or
   * touches the table, however much later it reports and whatever was connected in between.
   */
  lemma DoomedFetchDoesNothing(s: State, steps: seq<Step>, id: nat, config: Option<string>, env: Env)
    requires Inv(s) && IsRun(s, steps) && IsDoomed(s, id) && NoRestart(steps)
    requires Enabled(After(s, steps), Step(FetchDone(id, config), env))
    ensures var t := After(s, steps); var t' := Next(t, Step(FetchDone(id, config), env));
            t'.files == t.files && t'.children == t.children && t'.pid == t.pid && t'.table == t.table &&
              t'.timer == t.timer
  {
    RunKeepsDoomedAll(s, steps, id);
    NextFetched(After(s, steps), Step(FetchDone(id, config), env));
    hide After, IsRun, Inv, RunOpenvpn, Exists, Store, Next;
  }

  // ----- Requests that succeed

  /** A profile is only ever stored for the connection and the parameters it was requested for. */
  lemma StoredAsRequested(s: State, step: Step)
    requires Inv(s) && Enabled(s, step) && step.event.FetchDone? && Next(s, step).files != s.files
    ensures var fetch := s.fetches[step.event.id];
            && !fetch.cancelled && step.event.config.Some?
            && Next(s, step).files ==
               Store(s.files, fetch.uuid, fetch.params, step.event.config.value, step.env.now, step.env.disk)
  {
    NextFetched(s, step);
    FetchedFiles(s, step.event.id, step.event.config, step.env);
    hide Fetched, Store, ProcessInv, GuardInv, Next;
  }

  // ----- Fetching and being connected exclude each other

  ghost predicate NotStartedYet(s: State) { s.fetch.Some? ==> !s.started }

  lemma NextFetched(s: State, step: Step)
    requires s.Valid() && Enabled(s, step) && step.event.FetchDone?
    ensures Next(s, step) == Fetched(s, step.event.id, step.event.config, step.env)
  {
    hide Connected, Disconnected, Fetched, Watched, TimedOut, StateChangedTo, Exit, Cleanup, Restarted;
  }

  /**
   * The one step that breaks this is a report of the started state while a fetch is in flight, and so without a
   * process.
   */
  lemma StepNotStarted(s: State, step: Step)
    requires Inv(s) && NotStartedYet(s) && Enabled(s, step)
    ensures NotStartedYet(Next(s, step)) <==> !(step.event == StateChanged(Started) && s.fetch.Some?)
  {
    hide Next, Runs, Base, Connected, Fetched, RunOpenvpn, ProcessInv, FetchInv, GuardInv;
    if Runs(s, step) {
      BaseFlags(s, step);
      RunsBase(s, step);
      RunHasEffect(Base(s, step), step.env);
    } else {
      FlagsStep(s, step);
    }
  }

  lemma BaseFlags(s: State, step: Step)
    requires Inv(s) && Enabled(s, step) && Runs(s, step)
    ensures Base(s, step).fetch.None? && !step.event.StateChanged?
  {
    hide IsValid, Exists, Store, GuardInv, Cancel, Signal, Disarmed, ProcessInv;
  }

  lemma ConnectFlags(s: State, c: Connection, kind: Kind, env: Env)
    requires NotStartedYet(s) && !(c.valid && env.stateDirOk && IsValid(s.files, c.uuid, c.params, env.now))
    ensures NotStartedYet(Connected(s, c, kind, env))
  {
    hide IsValid, Cancel, Signal, Disarmed, State.Valid;
  }

  lemma FetchFlags(s: State, id: nat, config: Option<string>, step: Step)
    requires s.Valid() && Enabled(s, step) && step.event == FetchDone(id, config) && NotStartedYet(s) && !Runs(s, step)
    ensures NotStartedYet(Fetched(s, id, config, step.env))
  {
    hide Exists, Store, RunOpenvpn, Disk.Completes;
  }

  lemma WatchFlags(s: State, child: nat, status: Status, env: Env)
    ensures Watched(s, child, status, env).started == s.started && Watched(s, child, status, env).fetch == s.fetch
    ensures TimedOut(s, env).started == s.started && TimedOut(s, env).fetch == s.fetch
  {
    hide MarkStale, State.Valid, Signal;
  }

  lemma CleanupFlags(s: State, env: Env)
    ensures Cleanup(s, env).fetch.None? && Disconnected(s, env).fetch.None?
  {
  }

  lemma FlagsStep(s: State, step: Step)
    requires Inv(s) && NotStartedYet(s) && Enabled(s, step) && !Runs(s, step)
    ensures NotStartedYet(Next(s, step)) <==> !(step.event == StateChanged(Started) && s.fetch.Some?)
  {
    hide Connected, Disconnected, Fetched, Watched, TimedOut, Cleanup, Exit, Restarted, StateChangedTo, Runs,
      ProcessInv, FetchInv, GuardInv;
    match step.event
    case Connect(c, kind) =>
      NotRunning(s, step);
      ConnectFlags(s, c, kind, step.env);
    case Disconnect => CleanupFlags(s, step.env);
    case FetchDone(id, config) => FetchFlags(s, id, config, step);
    case ChildWatch(child, status) => WatchFlags(s, child, status, step.env);
    case ConnectTimeout => WatchFlags(s, 0, Unclear, step.env);
    case Dispose => CleanupFlags(s, step.env);
    case ChildExit(pid) => ExitFlags(s, pid);
    case StateChanged(state) => StateFlags(s, state);
    case Restart => RestartFlags(s, step.env);
  }

  lemma ExitFlags(s: State, pid: nat)
    requires pid in s.children
    ensures Exit(s, pid).started == s.started && Exit(s, pid).fetch == s.fetch
  {
  }

  lemma StateFlags(s: State, state: VpnState)
    ensures StateChangedTo(s, state).started <==> s.started || state.Started?
    ensures StateChangedTo(s, state).fetch == s.fetch
  {
  }

  lemma RestartFlags(s: State, env: Env)
    ensures Restarted(s, env).fetch.None?
  {
  }

  /** The started state is only reported while a process is running. */
  predicate StartsWithProcess(s: State, steps: seq<Step>)
    requires s.Valid() && IsRun(s, steps)
    decreases |steps|
  {
    steps == [] ||
      ((steps[0].event == StateChanged(Started) ==> s.pid != 0) && StartsWithProcess(Next(s, steps[0]), steps[1..]))
  }

  lemma {:induction false} RunNotStarted(s: State, steps: seq<Step>)
    requires Inv(s) && NotStartedYet(s) && IsRun(s, steps) && StartsWithProcess(s, steps)
    ensures NotStartedYet(After(s, steps))
    decreases |steps|
  {
    hide ProcessInv, GuardInv, Next, Enabled, NotStartedYet;
    if steps != [] {
      StepInv(s, steps[0]);
      StepNotStarted(s, steps[0]);
      RunNotStarted(Next(s, steps[0]), steps[1..]);
    }
  }
}
