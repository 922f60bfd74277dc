/** How the daemon's runs use the profile cache: stale profiles are fetched anew, and hits serve what was fetched. */
module ProfileFreshness {
  import opened Basics
  import opened Generator
  import opened Cache
  import opened KillSwitch
  import opened Service
  import opened ServiceEffects
  import opened ServiceSafety
  import opened KillSwitchSafety

  // ----- The files as a history of stores and marks

  /** The attempt fails before it was ever connected, in one of the three ways that this shows. */
  predicate FailsEarly(s: State, event: Event) {
    && !s.started
    && match event
       case ChildWatch(_, status) => status in {Stopped, Signaled} || (status.Exited? && status.code != 0)
       case ConnectTimeout => true
       case Disconnect => s.pid != 0
       case _ => false
  }

  /** What a step does to the cache. */
  function StepOps(s: State, step: Step): (ops: seq<Op>)
    requires s.Valid() && Enabled(s, step)
  {
    if FailsEarly(s, step.event) && s.uuid.Some? then [MarkOp(s.uuid.value, step.env.marksStale)]
    else
      match step.event
      case FetchDone(id, Some(text)) =>
        if s.fetches[id].cancelled || s.connection.None? then []
        else [StoreOp(s.uuid.value, s.connection.value.params, text, step.env.now, step.env.disk)]
      case _ => []
  }

  lemma RunOne(files: Files, op: Op)
    ensures Cache.Run(files, [op]) == Apply(files, op) && Cache.Run(files, []) == files
  {
    assert [op][..0] == [];
  }

  lemma {:induction false} RunConcat(files: Files, a: seq<Op>, b: seq<Op>)
    ensures Cache.Run(files, a + b) == Cache.Run(Cache.Run(files, a), b)
    decreases |b|
  {
    hide Apply;
    if b == [] {
      assert a + b == a;
    } else {
      RunConcat(files, a, b[..|b| - 1]);
      assert (a + b)[..|a + b| - 1] == a + b[..|b| - 1];
    }
  }

  lemma MarkFiles(s: State, env: Env)
    ensures MarkCurrentStale(s, env).files
            == if s.uuid.Some? then Apply(s.files, MarkOp(s.uuid.value, env.marksStale)) else s.files
  {
    hide MarkStale;
  }

  lemma ConnectFiles(s: State, c: Connection, kind: Kind, env: Env)
    ensures Connected(s, c, kind, env).files == s.files
  {
    CleanupFiles(s, env);
    RunHasEffect(ConnectBase(s, c, env), env);
    hide Cleanup, RunOpenvpn, IsValid, AttemptRules;
  }

  lemma WatchFiles(s: State, child: nat, status: Status, env: Env)
    ensures Watched(s, child, status, env).files
            == if status.IsFailure() && !s.started then MarkCurrentStale(s, env).files else s.files
    ensures TimedOut(s, env).files == if s.started then s.files else MarkCurrentStale(s, env).files
  {
    hide MarkStale, State.Valid, Signal;
  }

  lemma DisconnectFiles(s: State, env: Env)
    ensures Disconnected(s, env).files == if s.pid != 0 && !s.started then MarkCurrentStale(s, env).files else s.files
  {
    CleanupFiles(s, env);
    CleanupFiles(MarkCurrentStale(s, env), env);
    hide Cleanup, MarkCurrentStale;
  }

  lemma EarlyOps(s: State, step: Step)
    requires s.Valid() && Enabled(s, step) && FailsEarly(s, step.event)
    ensures Cache.Run(s.files, StepOps(s, step)) == MarkCurrentStale(s, step.env).files
  {
    hide Apply, MarkCurrentStale, Cache.Run;
    MarkFiles(s, step.env);
    RunOne(s.files, MarkOp(s.uuid.GetOr(""), step.env.marksStale));
  }

  lemma NoOps(s: State, step: Step)
    requires s.Valid() && Enabled(s, step) && !FailsEarly(s, step.event) && !step.event.FetchDone?
    ensures Cache.Run(s.files, StepOps(s, step)) == s.files
  {
    RunOne(s.files, MarkOp("", true));
  }

  lemma ReportFiles(s: State, pid: nat, state: VpnState, env: Env)
    ensures pid in s.children ==> Exit(s, pid).files == s.files
    ensures StateChangedTo(s, state).files == s.files && Restarted(s, env).files == s.files
  {
    hide State.Valid, Disarmed;
  }

  lemma EventFiles(s: State, step: Step)
    requires s.Valid() && Enabled(s, step) && !step.event.FetchDone?
    ensures Next(s, step).files == if FailsEarly(s, step.event) then MarkCurrentStale(s, step.env).files else s.files
  {
    hide Connected, Disconnected, Watched, TimedOut, Cleanup, MarkCurrentStale, State.Valid, Exit, StateChangedTo,
      Restarted;
    var env := step.env;
    match step.event
    case Connect(c, kind) => ConnectFiles(s, c, kind, env);
    case Disconnect => DisconnectFiles(s, env);
    case ChildWatch(child, status) => WatchFiles(s, child, status, env);
    case ConnectTimeout => WatchFiles(s, 0, Unclear, env);
    case Dispose => CleanupFiles(s, env);
    case ChildExit(pid) => ReportFiles(s, pid, Unknown, env);
    case StateChanged(state) => ReportFiles(s, 0, state, env);
    case Restart => ReportFiles(s, 0, Unknown, env);
  }

  /** The files after a step are what the step's stores and marks make of them. */
  lemma FilesStep(s: State, step: Step)
    requires s.Valid() && Enabled(s, step)
    ensures Next(s, step).files == Cache.Run(s.files, StepOps(s, step))
  {
    if step.event.FetchDone? {
      hide Fetched, StepOps, Cache.Run, Enabled;
      FetchedOps(s, step, step.event.id, step.event.config);
    } else {
      hide Next, StepOps, Cache.Run, MarkCurrentStale, FailsEarly, Enabled;
      EventFiles(s, step);
      if FailsEarly(s, step.event) {
        EarlyOps(s, step);
      } else {
        NoOps(s, step);
      }
    }
  }

  lemma FetchedOps(s: State, step: Step, id: nat, config: Option<string>)
    requires s.Valid() && Enabled(s, step) && step.event == FetchDone(id, config)
    ensures Fetched(s, id, config, step.env).files == Cache.Run(s.files, StepOps(s, step))
  {
    hide Fetched, Store, Cache.Run;
    FetchedFiles(s, id, config, step.env);
    if !s.fetches[id].cancelled && s.connection.Some? && config.Some? {
      RunOne(s.files, StoreOp(s.uuid.value, s.connection.value.params, config.value, step.env.now, step.env.disk));
    } else {
      RunOne(s.files, MarkOp("", true));
    }
  }

  function Ops(s: State, steps: seq<Step>): (ops: seq<Op>)
    requires s.Valid() && IsRun(s, steps)
    decreases |steps|
  {
    if steps == [] then [] else StepOps(s, steps[0]) + Ops(Next(s, steps[0]), steps[1..])
  }

  /** A run of the daemon is, for its cache, a history of stores and marks. */
  lemma {:induction false} RunIsHistory(s: State, steps: seq<Step>)
    requires s.Valid() && IsRun(s, steps)
    ensures After(s, steps).files == Cache.Run(s.files, Ops(s, steps))
    decreases |steps|
  {
    hide Next, Enabled, StepOps;
    if steps != [] {
      FilesStep(s, steps[0]);
      RunIsHistory(Next(s, steps[0]), steps[1..]);
      RunConcat(s.files, StepOps(s, steps[0]), Ops(Next(s, steps[0]), steps[1..]));
    }
  }

  // ----- Staleness

  /** No profile of this connection is usable without asking the generator. */
  predicate IsStale(files: Files, u: string) { u !in files.meta || files.meta[u].stale }

  /** An attempt that fails before it is connected leaves its profile stale, if the mark can be written. */
  lemma EarlyFailureMarks(s: State, step: Step)
    requires s.Valid() && Enabled(s, step) && FailsEarly(s, step.event) && s.uuid.Some? && step.env.marksStale
    ensures IsStale(Next(s, step).files, s.uuid.value)
  {
    hide Next;
    FilesStep(s, step);
    RunOne(s.files, MarkOp(s.uuid.value, true));
  }

  /** In a reachable state that mark goes to the profile of the process itself. */
  lemma EarlyFailureMarksItsOwn(s: State, step: Step)
    requires Inv(s) && Enabled(s, step) && FailsEarly(s, step.event) && s.pid != 0 && step.env.marksStale
    ensures IsStale(Next(s, step).files, s.children[s.pid].uuid)
  {
    hide Next, FetchInv, GuardInv;
    EarlyFailureMarks(s, step);
  }

  /** Once connected, only a finished fetch changes the files: a drop leaves the profile as good as it was. */
  lemma DropLeavesFiles(s: State, step: Step)
    requires s.Valid() && Enabled(s, step) && s.started && !step.event.FetchDone?
    ensures Next(s, step).files == s.files
  {
    hide Next;
    FilesStep(s, step);
    RunOne(s.files, MarkOp("", true));
  }

  /** A fetch that finishes with a profile for this connection and stores it completely. */
  predicate Refreshes(s: State, step: Step, u: string)
    requires s.Valid() && Enabled(s, step)
  {
    exists op :: op in StepOps(s, step) && op.Stores(u)
  }

  lemma StaleStep(s: State, step: Step, u: string)
    requires s.Valid() && Enabled(s, step) && IsStale(s.files, u) && !Refreshes(s, step, u)
    ensures IsStale(Next(s, step).files, u)
  {
    hide Next, Enabled;
    FilesStep(s, step);
    var ops := StepOps(s, step);
    if ops == [] {
      RunOne(s.files, MarkOp("", true));
    } else {
      RunOne(s.files, ops[0]);
      assert ops[0] in ops;
      StaleOp(s.files, ops[0], u);
      assert ops == [ops[0]];
    }
  }

  lemma StaleOp(files: Files, op: Op, u: string)
    requires IsStale(files, u) && !op.Stores(u)
    ensures IsStale(Apply(files, op), u)
  {
    hide CacheKey;
  }

  /** A connect does not start a process from a stale profile. */
  lemma StaleConnect(s: State, step: Step, u: string)
    requires Inv(s) && Enabled(s, step) && IsStale(s.files, u) && step.event.Connect? && step.event.connection.uuid == u
    ensures !Spawns(s, step)
  {
    hide Next, Enabled, Inv, CacheKey;
    assert s.Valid() by {
      ValidOf(s);
    }
    if Spawns(s, step) {
      SpawnDetails(s, step);
    }
  }

  lemma ValidOf(s: State)
    requires Inv(s)
    ensures s.Valid()
  {
  }

  /** No connect of the run starts a process for this connection. */
  predicate NoSpawnFromCache(s: State, steps: seq<Step>, u: string)
    requires s.Valid() && IsRun(s, steps)
    decreases |steps|
  {
    steps == []
    || (&& !(steps[0].event.Connect? && steps[0].event.connection.uuid == u && Spawns(s, steps[0]))
        && NoSpawnFromCache(Next(s, steps[0]), steps[1..], u))
  }

  predicate NeverRefreshes(s: State, steps: seq<Step>, u: string)
    requires s.Valid() && IsRun(s, steps)
    decreases |steps|
  {
    steps == [] || (!Refreshes(s, steps[0], u) && NeverRefreshes(Next(s, steps[0]), steps[1..], u))
  }

  /**
   * From a stale profile on, no connect starts a process before a fetch has completed and been stored, however
   * long the run.
   */
  lemma {:induction false} StaleUntilFetched(s: State, steps: seq<Step>, u: string)
    requires Inv(s) && IsRun(s, steps) && IsStale(s.files, u) && NeverRefreshes(s, steps, u)
    ensures NoSpawnFromCache(s, steps, u) && IsStale(After(s, steps).files, u)
    decreases |steps|
  {
    hide ProcessInv, FetchInv, GuardInv, Next, Enabled, Refreshes, IsStale, Spawns;
    if steps != [] {
      StepInv(s, steps[0]);
      StaleStep(s, steps[0], u);
      if steps[0].event.Connect? && steps[0].event.connection.uuid == u {
        StaleConnect(s, steps[0], u);
      }
      StaleUntilFetched(Next(s, steps[0]), steps[1..], u);
    }
  }

  // ----- Hits

  /**
   * A process that a connect starts without a fetch runs the profile that an earlier fetch of the run delivered for the
   * same parameters, at most 90 days ago and not marked since, provided no store of this connection was torn after it.
   */
  lemma HitsServeFetched(s0: State, steps: seq<Step>, step: Step) returns (i: nat)
    requires Inv(s0) && IsRun(s0, steps) && Enabled(After(s0, steps), step)
    requires step.event.Connect? && Spawns(After(s0, steps), step) && step.event.connection.uuid !in s0.files.meta
    requires Unambiguous(Ops(s0, steps), step.event.connection.uuid, step.event.connection.params)
    ensures var ops, c, s := Ops(s0, steps), step.event.connection, Next(After(s0, steps), step);
            && StoredFor(ops, c.uuid, c.params, i) && !MarkedAfter(ops, c.uuid, i)
            && 0 < ops[i].now && step.env.now - ops[i].now <= 90 * 24 * 3600
            && s.pid in s.children
            && ((forall k :: i < k < |ops| ==> !ops[k].Tears(c.uuid)) ==>
               s.children[s.pid].profile == Some(ops[i].config))
  {
    RunKeepsInv(s0, steps);
    RunIsHistory(s0, steps);
    var t, ops, c := After(s0, steps), Ops(s0, steps), step.event.connection;
    SpawnDetails(t, step);
    ConnectRunsValid(t, step);
    hide After, IsRun, Ops, Next, Enabled, Spawns, Unambiguous, MarkedAfter, Inv, IsLastStore;
    ValidExactly(s0.files, ops, c.uuid, c.params, step.env.now);
    i :| && StoredFor(ops, c.uuid, c.params, i) && !MarkedAfter(ops, c.uuid, i)
         && 0 < ops[i].now && step.env.now - ops[i].now <= 90 * 24 * 3600;
    if forall k :: i < k < |ops| ==> !ops[k].Tears(c.uuid) {
      HitServesStored(s0.files, ops, c.uuid, i);
    }
  }

  lemma ConnectRunsValid(s: State, step: Step)
    requires s.Valid() && Enabled(s, step) && step.event.Connect? && Runs(s, step)
    ensures var c, base := step.event.connection, Base(s, step);
            IsValid(s.files, c.uuid, c.params, step.env.now) && base.uuid == Some(c.uuid) &&
              base.ProfileOf(c.uuid) == s.ProfileOf(c.uuid)
  {
    hide IsValid;
  }

  /** Every store in a run's history was delivered by a fetch for exactly these parameters. */
  lemma StoresAreFetched(s: State, step: Step, op: Op)
    requires Inv(s) && Enabled(s, step) && op in StepOps(s, step) && op.StoreOp?
    ensures step.event.FetchDone? && step.event.config == Some(op.config)
    ensures s.fetches[step.event.id] == Fetch(op.uuid, op.params, false)
  {
    hide GuardInv, ProcessInv;
  }
}
