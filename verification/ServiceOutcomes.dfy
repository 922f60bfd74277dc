/** What each step of the daemon comes to: when it starts openvpn, when it asks the generator, and what it ends. */
module ServiceOutcomes {
  import opened Basics
  import opened Cache
  import FetchSafety
  import opened KillSwitch
  import opened KillSwitchSafety
  import opened Nftables
  import opened Service
  import opened ServiceEffects
  import opened ServiceSafety

  // ----- Starting openvpn

  /** What a connection, the ruleset for its profile, and the outside world make possible. */
  predicate CanStart(c: Connection, profile: Option<string>, env: Env) {
    && env.spawned.Some?
    && (c.killSwitch == Some("yes") ==>
          && Generated(env.net, profile, env.resolvConf, c.allowLan == Some("yes")).Some?
          && env.nft.available && env.nft.wroteFile && env.nft.ran)
  }

  lemma RunStarts(s: State, env: Env)
    requires s.Valid() && s.connection.Some? && s.pid == 0 && env.openvpnFound
    requires env.spawned.Some? ==> env.spawned.value != 0
    ensures var can := CanStart(s.connection.value, s.ProfileOf(s.uuid.value), env);
            && (can ==> env.spawned.Some?)
            && RunOpenvpn(s, env).1 == can
            && RunOpenvpn(s, env).0.pid == if can then env.spawned.value else 0
  {
    hide Generated, Disarmed, Armed;
  }

  /**
   * Past the supersede point a process is started exactly when it can be, with the number that it was given, and
   * `run_openvpn` says so. Short of that point no step starts one.
   */
  lemma SpawnsExactly(s: State, step: Step)
    requires Inv(s) && Enabled(s, step)
    ensures Spawns(s, step) <==>
            Supersedes(s, step) && CanStart(Base(s, step).connection.value,
                                            Base(s, step).ProfileOf(Base(s, step).uuid.value), step.env)
    ensures Spawns(s, step) ==> step.env.spawned == Some(Next(s, step).pid)
    ensures Runs(s, step) ==> (RunOpenvpn(Base(s, step), step.env).1 <==> Spawns(s, step))
  {
    if step.env.spawned.Some? {
      NewNumber(s, step);
    }
    hide Base, Runs, CanStart, RunOpenvpn, Inv, State.ProfileOf, Next, Enabled;
    if Supersedes(s, step) {
      BaseIsIdle(s, step);
      RunsBase(s, step);
      RunStarts(Base(s, step), step.env);
      assert Spawns(s, step) <==> Next(s, step).pid != 0 && Next(s, step).pid != s.pid;
    } else {
      UnlessSuperseding(s, step);
      if Runs(s, step) {
        NotFound(Base(s, step), step.env);
      }
    }
  }

  lemma NewNumber(s: State, step: Step)
    requires Inv(s) && Enabled(s, step) && step.env.spawned.Some?
    ensures step.env.spawned.value != 0 && step.env.spawned.value != s.pid
  {
  }

  lemma NotFound(s: State, env: Env)
    requires s.Valid() && s.connection.Some? && !env.openvpnFound
    ensures !RunOpenvpn(s, env).1
  {
  }

  // ----- Asking the generator

  /** A connect asks the generator: it is complete, nothing usable is cached, and there is a key. */
  predicate Asks(s: State, step: Step) {
    && step.event.Connect?
    && var c := step.event.connection;
    && c.valid && step.env.stateDirOk && !IsValid(s.files, c.uuid, c.params, step.env.now)
    && c.apiKey.Some? && c.apiKey.value != ""
  }

  lemma ConnectAsks(s: State, c: Connection, env: Env)
    requires s.Valid() && !(c.valid && env.stateDirOk && IsValid(s.files, c.uuid, c.params, env.now))
    ensures var asks := Asks(s, Step(Connect(c, Plain), env)); var (s', ok) := ConnectCommon(s, c, env);
            && ok == asks && (c.valid ==> !s'.interactive)
            && s'.fetch == (if asks then Some(s.nextFetch) else if c.valid then None else s.fetch)
            && (asks ==> s.nextFetch in s'.fetches && s'.fetches[s.nextFetch] == Fetch(c.uuid, c.params, false))
            && s'.connection == (if c.valid then Some(c) else s.connection)
            && (!c.valid ==> s' == s)
  {
    hide IsValid, RunOpenvpn, Cancel, Signal, Disarmed;
  }

  /**
   * A connect with a complete connection leaves a fetch in flight exactly when it asks, and then for this connection
   * and these parameters; it succeeds exactly when it asks or starts a process; an incomplete one changes nothing.
   */
  lemma ConnectExactly(s: State, step: Step)
    requires Inv(s) && Enabled(s, step) && step.event.Connect?
    ensures var c, s' := step.event.connection, Next(s, step);
            && (c.valid ==> s'.connection == Some(c) && s'.uuid == Some(c.uuid))
            && (c.valid ==> (s'.fetch.Some? <==> Asks(s, step)))
            && (Asks(s, step) ==> s'.fetch == Some(s.nextFetch) && s.nextFetch in s'.fetches
                                  && s'.fetches[s.nextFetch] == Fetch(c.uuid, c.params, false))
            && (ConnectCommon(s, c, step.env).1 <==> Asks(s, step) || Spawns(s, step))
            && (s'.interactive <==> if c.valid then step.event.kind.Interactive? && (Asks(s, step) || Spawns(s, step))
                                    else s.interactive)
            && (!c.valid ==> s' == s)
  {
    var c, env := step.event.connection, step.env;
    NextConnected(s, step);
    SpawnsExactly(s, step);
    if Runs(s, step) {
      RunsBase(s, step);
      RunHasEffect(Base(s, step), env);
      ConnectBaseIs(s, c, env);
      ConnectRuns(s, c, env);
    } else {
      NotRunning(s, step);
      ConnectAsks(s, c, env);
      UnlessSuperseding(s, step);
    }
    hide RunOpenvpn, ConnectCommon, Inv, IsValid, Next, Cleanup, Spawns, ConnectBase, AttemptRules, Quiet,
      State.ProfileOf;
  }

  lemma NextConnected(s: State, step: Step)
    requires s.Valid() && Enabled(s, step) && step.event.Connect?
    ensures Next(s, step) == Connected(s, step.event.connection, step.event.kind, step.env)
  {
    hide Connected, Disconnected, Fetched, Watched, TimedOut, StateChangedTo, Exit, Cleanup, Restarted;
  }

  lemma ConnectBaseIs(s: State, c: Connection, env: Env)
    ensures var base := ConnectBase(s, c, env);
            && base.connection == Some(c) && base.uuid == Some(c.uuid) && base.fetch == None && base.pid == 0
            && !base.interactive
  {
    hide Cancel, Signal, Disarmed;
  }

  lemma ConnectRuns(s: State, c: Connection, env: Env)
    requires c.valid && env.stateDirOk && IsValid(s.files, c.uuid, c.params, env.now)
    ensures ConnectCommon(s, c, env) == RunOpenvpn(ConnectBase(s, c, env), env)
  {
    hide RunOpenvpn, IsValid, Cancel, Signal, Disarmed;
  }

  // ----- What a step ends

  /** The event that ends an attempt on purpose: it is superseded, given up, or its daemon is gone. */
  predicate EndsAttempt(event: Event) {
    event.Disconnect? || event.Dispose? || event.Restart? || (event.Connect? && event.connection.valid)
  }

  /** The current process is told to end: with its attempt, or because it took too long to connect. */
  predicate TellsToEnd(s: State, event: Event) {
    !event.Restart? && (EndsAttempt(event) || (event.ConnectTimeout? && !s.started))
  }

  /** What run_openvpn leaves alone, and the process that it adds. */
  ghost predicate RunFrame(base: State, s': State, env: Env, spawns: bool) {
    && s'.connection == base.connection && s'.started == base.started && s'.fetch == base.fetch
    && s'.fetches == base.fetches && s'.nextFetch == base.nextFetch && s'.uuid == base.uuid
    && s'.unexpectedDrop == (base.unexpectedDrop && !env.openvpnFound)
    && s'.timer == (base.timer || spawns)
    && (if spawns then s'.pid in s'.children && s'.children == base.children[s'.pid := s'.children[s'.pid]]
        else s'.pid == 0 && s'.children == base.children)
  }

  lemma RunsFrame(s: State, step: Step)
    requires Inv(s) && Enabled(s, step) && Runs(s, step)
    ensures RunFrame(Base(s, step), Next(s, step), step.env, Spawns(s, step))
  {
    if step.env.spawned.Some? {
      NewNumber(s, step);
    }
    BaseIsIdle(s, step);
    RunsBase(s, step);
    RunHasEffect(Base(s, step), step.env);
    hide Runs, RunOpenvpn, Inv, State.ProfileOf, Next, Enabled, Base, AttemptRules;
    assert Spawns(s, step) <==> Next(s, step).pid != 0 && Next(s, step).pid != s.pid;
  }

  lemma CleanupIs(s: State, env: Env)
    ensures var t := Cleanup(s, env);
            && t.pid == 0 && !t.interactive && !t.started && t.connection == None && t.fetch == None && !t.timer
            && t.unexpectedDrop == s.unexpectedDrop && t.nextFetch == s.nextFetch && t.uuid == None
            && t.fetches == Cancel(s.fetches, s.fetch) && t.children == Signal(s.children, s.pid)
  {
    hide Cancel, Signal, Disarmed;
  }

  lemma DisconnectedIs(s: State, env: Env)
    ensures var t := Disconnected(s, env);
            && t.pid == 0 && !t.interactive && !t.started && t.connection == None && t.fetch == None && !t.timer
            && t.unexpectedDrop == s.unexpectedDrop && t.nextFetch == s.nextFetch && t.uuid == None
            && t.fetches == Cancel(s.fetches, s.fetch) && t.children == Signal(s.children, s.pid)
  {
    CleanupIs(s, env);
    CleanupIs(MarkCurrentStale(s, env), env);
    MarkIs(s, env);
    hide Cleanup, MarkCurrentStale;
  }

  lemma MarkIs(s: State, env: Env)
    ensures var t := MarkCurrentStale(s, env);
            && t.pid == s.pid && t.interactive == s.interactive && t.started == s.started && t.timer == s.timer
            && t.connection == s.connection && t.fetch == s.fetch && t.fetches == s.fetches
            && t.nextFetch == s.nextFetch && t.unexpectedDrop == s.unexpectedDrop && t.children == s.children
            && t.uuid == s.uuid
  {
    hide MarkStale, State.Valid;
  }

  // What becomes of the fields.

  predicate ConnectionAfter(s: State, s': State, event: Event) {
    s'.connection ==
    if event.Connect? && event.connection.valid then Some(event.connection)
    else if EndsAttempt(event) || (event.StateChanged? && event.state !in {Starting, Started}) then None
    else s.connection
  }

  /** The connection whose profile an early failure marks. */
  predicate UuidAfter(s: State, s': State, event: Event) {
    s'.uuid ==
    if event.Connect? && event.connection.valid then Some(event.connection.uuid)
    else if EndsAttempt(event) then None
    else s.uuid
  }

  predicate StartedAfter(s: State, s': State, event: Event) {
    s'.started <==> event == StateChanged(Started) || (s.started && !EndsAttempt(event))
  }

  predicate TimerAfter(s: State, s': State, event: Event, spawns: bool) {
    s'.timer <==> spawns || (&& s.timer && !EndsAttempt(event) && !event.ChildWatch? && !event.ConnectTimeout?
                             && (event.StateChanged? ==> event.state.Starting?))
  }

  predicate CurrentAfter(s: State, s': State, event: Event, spawned: Option<nat>) {
    s'.pid == if spawned.Some? then spawned.value else if EndsAttempt(event) || event.ChildWatch? then 0 else s.pid
  }

  /** A failure of a started process begins a drop; the supersede point and a new daemon end it. */
  predicate DropAfter(s: State, s': State, event: Event, supersedes: bool) {
    s'.unexpectedDrop <==>
    || (&& event.ChildWatch? && s.started
        && (event.status in {Stopped, Signaled} || (event.status.Exited? && event.status.code != 0)))
    || (s.unexpectedDrop && !supersedes && !event.Restart?)
  }

  /** The child is gone for the daemon, or for good. */
  predicate Leaves(s: State, event: Event, c: nat)
    requires c in s.children
  {
    || (event.ChildWatch? && event.child == c)
    || (event.ChildExit? && event.pid == c && !s.children[c].watched)
    || (event.Restart? && s.children[c].exited)
  }

  ghost predicate ChildrenAfter(s: State, s': State, event: Event, spawned: Option<nat>) {
    && (forall c :: c in s'.children <==> spawned == Some(c) || (c in s.children && !Leaves(s, event, c)))
    && (forall c :: c in s.children && c in s'.children && spawned != Some(c) ==>
          && (s'.children[c].signalled <==> s.children[c].signalled || (c == s.pid && TellsToEnd(s, event)))
          && (s'.children[c].exited <==> s.children[c].exited || (event.ChildExit? && event.pid == c))
          && (s'.children[c].watched <==> s.children[c].watched && !event.Restart?))
  }

  ghost predicate FetchesAfter(s: State, s': State, event: Event, asks: bool) {
    && s'.fetch == (if asks then Some(s.nextFetch)
                    else if EndsAttempt(event) || (event.FetchDone? && s.fetch == Some(event.id)) then None
                    else s.fetch)
    && (forall id :: id in s'.fetches <==>
          (asks && id == s.nextFetch)
          || (id in s.fetches && !event.Restart? && !(event.FetchDone? && event.id == id)))
    && (forall id :: id in s.fetches && id in s'.fetches ==>
          && s'.fetches[id].uuid == s.fetches[id].uuid && s'.fetches[id].params == s.fetches[id].params
          && (s'.fetches[id].cancelled <==> s.fetches[id].cancelled || (s.fetch == Some(id) && EndsAttempt(event))))
  }

  /** What a step comes to, given the process that it starts, and whether it supersedes or asks the generator. */
  ghost predicate Outcome(s: State, s': State, event: Event, spawned: Option<nat>, supersedes: bool, asks: bool) {
    && ConnectionAfter(s, s', event) && UuidAfter(s, s', event)
    && StartedAfter(s, s', event) && TimerAfter(s, s', event, spawned.Some?)
    && CurrentAfter(s, s', event, spawned) && DropAfter(s, s', event, supersedes)
    && ChildrenAfter(s, s', event, spawned) && FetchesAfter(s, s', event, asks)
  }

  lemma SignalledChildren(s: State, s': State, event: Event)
    requires ProcessInv(s)
    requires s'.children == if TellsToEnd(s, event) then Signal(s.children, s.pid) else s.children
    requires event.Connect? || event.Disconnect? || event.Dispose? || event.ConnectTimeout? || event.StateChanged?
             || event.FetchDone?
    ensures ChildrenAfter(s, s', event, None)
  {
  }

  lemma CancelledFetches(s: State, s': State, event: Event)
    requires s'.fetches == if EndsAttempt(event) then Cancel(s.fetches, s.fetch) else s.fetches
    requires s'.fetch == if EndsAttempt(event) then None else s.fetch
    requires !event.Restart? && !event.FetchDone?
    ensures FetchesAfter(s, s', event, false)
  {
  }

  lemma DisconnectOutcome(s: State, s': State, event: Event)
    requires Inv(s) && (event.Disconnect? || event.Dispose?)
    requires s'.pid == 0 && !s'.started && s'.connection == None && !s'.timer && s'.unexpectedDrop == s.unexpectedDrop
    requires s'.uuid == None && s'.fetch == None
    requires s'.fetches == Cancel(s.fetches, s.fetch) && s'.children == Signal(s.children, s.pid)
    ensures Outcome(s, s', event, None, false, false)
  {
    SignalledChildren(s, s', event);
    CancelledFetches(s, s', event);
    hide ChildrenAfter, FetchesAfter, FetchInv, GuardInv;
  }

  lemma WatchOutcome(s: State, child: nat, status: Status, env: Env)
    requires Inv(s)
    ensures Outcome(s, Watched(s, child, status, env), ChildWatch(child, status), None, false, false)
  {
    hide MarkCurrentStale, FetchInv, GuardInv, State.Valid;
    var s1, s' := s.(children := s.children - {child}, pid := 0, timer := false), Watched(s, child, status, env);
    MarkIs(s1, env);
    CancelledFetches(s, s', ChildWatch(child, status));
    WatchedKeeps(s, child, status, env);
    ReapedOutcome(s, s', child, status);
    hide FetchesAfter, ChildrenAfter;
  }

  lemma ReapedOutcome(s: State, s': State, child: nat, status: Status)
    requires s'.children == s.children - {child}
    ensures ChildrenAfter(s, s', ChildWatch(child, status), None)
  {
  }

  lemma TimeoutOutcome(s: State, env: Env)
    requires Inv(s)
    ensures Outcome(s, TimedOut(s, env), ConnectTimeout, None, false, false)
  {
    hide MarkCurrentStale, FetchInv, GuardInv, State.Valid, Signal;
    MarkIs(s.(timer := false, children := Signal(s.children, s.pid)), env);
    SignalledChildren(s, TimedOut(s, env), ConnectTimeout);
    CancelledFetches(s, TimedOut(s, env), ConnectTimeout);
    hide FetchesAfter, ChildrenAfter;
  }

  lemma StateOutcome(s: State, state: VpnState)
    requires Inv(s)
    ensures Outcome(s, StateChangedTo(s, state), StateChanged(state), None, false, false)
  {
    hide FetchInv, GuardInv, State.Valid;
    SignalledChildren(s, StateChangedTo(s, state), StateChanged(state));
    CancelledFetches(s, StateChangedTo(s, state), StateChanged(state));
    hide FetchesAfter, ChildrenAfter;
  }

  lemma ExitOutcome(s: State, pid: nat)
    requires Inv(s) && pid in s.children
    ensures Outcome(s, Exit(s, pid), ChildExit(pid), None, false, false)
  {
    hide FetchInv, GuardInv, State.Valid;
    DepartedOutcome(s, Exit(s, pid), pid);
    CancelledFetches(s, Exit(s, pid), ChildExit(pid));
    hide FetchesAfter, ChildrenAfter, Departed;
  }

  lemma DepartedOutcome(s: State, s': State, pid: nat)
    requires pid in s.children && s'.children == Departed(s.children, pid)
    ensures ChildrenAfter(s, s', ChildExit(pid), None)
  {
  }

  lemma RestartOutcome(s: State, env: Env)
    requires Inv(s)
    ensures Outcome(s, Restarted(s, env), Restart, None, false, false)
  {
    RestartedIs(s, env);
    OrphansOutcome(s, Restarted(s, env));
    hide Orphans, ChildrenAfter, FetchInv, GuardInv, Disarmed;
  }

  lemma OrphansOutcome(s: State, s': State)
    requires s'.children == Orphans(s.children)
    ensures ChildrenAfter(s, s', Restart, None)
  {
  }

  /** The state of a connect behind its cleanup. */
  ghost predicate CleanedFor(s: State, base: State, c: Connection) {
    && base.pid == 0 && !base.started && !base.timer && base.connection == Some(c) && base.uuid == Some(c.uuid)
    && base.fetch == None
    && base.unexpectedDrop == s.unexpectedDrop && base.nextFetch == s.nextFetch
    && base.fetches == Cancel(s.fetches, s.fetch) && base.children == Signal(s.children, s.pid)
  }

  lemma ConnectBaseCleaned(s: State, c: Connection, env: Env)
    ensures CleanedFor(s, ConnectBase(s, c, env), c)
  {
    CleanupIs(s, env);
    hide Cancel, Signal, Cleanup;
  }

  lemma CleanedOutcome(s: State, base: State, event: Event)
    requires Inv(s) && event.Connect? && event.connection.valid && CleanedFor(s, base, event.connection)
    ensures Outcome(s, base, event, None, false, false)
  {
    SignalledChildren(s, base, event);
    CancelledFetches(s, base, event);
    hide ChildrenAfter, FetchesAfter, FetchInv, GuardInv;
  }

  /** run_openvpn on top of an outcome without a process. */
  lemma RunOutcome(s: State, base: State, s': State, event: Event, env: Env, spawns: bool)
    requires Outcome(s, base, event, None, false, false) && RunFrame(base, s', env, spawns) && base.pid == 0
    requires event.Connect? || event.FetchDone?
    requires spawns ==> s'.pid !in s.children
    ensures Outcome(s, s', event, if spawns then Some(s'.pid) else None, env.openvpnFound, false)
  {
  }

  lemma AskOutcome(s: State, base: State, s': State, event: Event, f: Fetch)
    requires Inv(s) && Outcome(s, base, event, None, false, false) && event.Connect? && base.nextFetch == s.nextFetch
    requires s'.connection == base.connection && s'.started == base.started && s'.timer == base.timer
    requires s'.pid == base.pid && s'.unexpectedDrop == base.unexpectedDrop && s'.children == base.children
    requires s'.fetches == base.fetches[s.nextFetch := f] && s'.fetch == Some(s.nextFetch) && s'.uuid == base.uuid
    ensures Outcome(s, s', event, None, false, true)
  {
    hide ProcessInv, GuardInv, ChildrenAfter;
    ChildrenAlike(s, base, s', event);
  }

  lemma ChildrenAlike(s: State, base: State, s': State, event: Event)
    requires ChildrenAfter(s, base, event, None) && s'.children == base.children
    ensures ChildrenAfter(s, s', event, None)
  {
  }

  lemma ConnectIdle(s: State, c: Connection, kind: Kind, env: Env)
    requires c.valid && !(env.stateDirOk && IsValid(s.files, c.uuid, c.params, env.now))
    ensures var base, s', asks := ConnectBase(s, c, env), Connected(s, c, kind, env),
                                  Asks(s, Step(Connect(c, kind), env));
            && s'.connection == base.connection && s'.started == base.started && s'.timer == base.timer
            && s'.pid == base.pid && s'.unexpectedDrop == base.unexpectedDrop && s'.children == base.children
            && s'.fetches ==
               (if asks then base.fetches[base.nextFetch := Fetch(c.uuid, c.params, false)] else base.fetches)
            && s'.uuid == base.uuid && s'.fetch == if asks then Some(base.nextFetch) else base.fetch
  {
    CleanupFiles(s, env);
    hide IsValid, RunOpenvpn, Cleanup, State.Valid;
  }

  lemma ConnectOutcome(s: State, step: Step)
    requires Inv(s) && Enabled(s, step) && step.event.Connect?
    ensures Outcome(s, Next(s, step), step.event, if Spawns(s, step) then step.env.spawned else None,
                    Supersedes(s, step), Asks(s, step))
  {
    var c, env, base := step.event.connection, step.env, ConnectBase(s, step.event.connection, step.env);
    NextConnected(s, step);
    ConnectBaseCleaned(s, c, env);
    SpawnsExactly(s, step);
    if step.env.spawned.Some? {
      NewNumber(s, step);
    }
    if !c.valid {
      InvalidOutcome(s, step);
    } else {
      CleanedOutcome(s, base, step.event);
      if Runs(s, step) {
        RunsFrame(s, step);
        RunOutcome(s, base, Next(s, step), step.event, env, Spawns(s, step));
      } else {
        ConnectIdle(s, c, step.event.kind, env);
        if Asks(s, step) {
          AskOutcome(s, base, Next(s, step), step.event, Fetch(c.uuid, c.params, false));
        } else {
          SameOutcome(s, base, Next(s, step), step.event);
        }
      }
    }
    hide Outcome, RunFrame, Inv, Next, Spawns, IsValid, ConnectBase, Connected;
  }

  lemma InvalidOutcome(s: State, step: Step)
    requires Inv(s) && Enabled(s, step) && step.event.Connect? && !step.event.connection.valid
    ensures Outcome(s, s, step.event, None, false, false) && Next(s, step) == s && !Spawns(s, step)
    ensures !Supersedes(s, step) && !Asks(s, step)
  {
    NextConnected(s, step);
    SpawnsExactly(s, step);
    hide Next, IsValid, Inv, Spawns, RunOpenvpn, Base, Outcome;
    NothingOutcome(s, step.event);
  }

  lemma NothingOutcome(s: State, event: Event)
    requires Inv(s) && event.Connect? && !event.connection.valid
    ensures Outcome(s, s, event, None, false, false)
  {
    SignalledChildren(s, s, event);
    CancelledFetches(s, s, event);
    hide ChildrenAfter, FetchesAfter, Inv;
  }

  lemma SameOutcome(s: State, base: State, s': State, event: Event)
    requires Outcome(s, base, event, None, false, false)
    requires s'.connection == base.connection && s'.started == base.started && s'.timer == base.timer
    requires s'.pid == base.pid && s'.unexpectedDrop == base.unexpectedDrop && s'.children == base.children
    requires s'.fetches == base.fetches && s'.fetch == base.fetch && s'.uuid == base.uuid
    ensures Outcome(s, s', event, None, false, false)
  {
  }

  /** The state of a finished fetch in front of run_openvpn, or instead of it. */
  ghost predicate FetchTaken(s: State, base: State, id: nat) {
    && base.connection == s.connection && base.started == s.started && base.timer == s.timer && base.pid == s.pid
    && base.unexpectedDrop == s.unexpectedDrop && base.children == s.children && base.fetches == s.fetches - {id}
    && base.uuid == s.uuid && base.fetch == if s.fetch == Some(id) then None else s.fetch
  }

  lemma TakenOutcome(s: State, base: State, event: Event)
    requires Inv(s) && event.FetchDone? && event.id in s.fetches && FetchTaken(s, base, event.id)
    ensures Outcome(s, base, event, None, false, false)
  {
    SignalledChildren(s, base, event);
    hide ChildrenAfter, FetchInv, GuardInv;
  }

  lemma CurrentFetch(s: State, id: nat)
    requires Inv(s) && id in s.fetches
    ensures s.fetches[id].cancelled <==> s.fetch != Some(id)
  {
  }

  lemma FetchIdle(s: State, id: nat, config: Option<string>, env: Env)
    requires s.Valid() && id in s.fetches && (s.fetches[id].cancelled <==> s.fetch != Some(id))
    requires s.fetches[id].cancelled || s.connection.None?
             || !(if config.Some? then env.disk.Completes()
                  else Exists(s.files, s.uuid.value, s.connection.value.params))
    ensures FetchTaken(s, Fetched(s, id, config, env), id)
  {
    hide RunOpenvpn, Exists, Store, Disk.Completes, State.Valid;
  }

  lemma FetchBaseTaken(s: State, id: nat, config: Option<string>, env: Env)
    requires Inv(s) && id in s.fetches && !s.fetches[id].cancelled && s.connection.Some?
    ensures FetchTaken(s, FetchBase(s, id, config, env), id)
  {
    hide Store, ProcessInv, GuardInv;
  }

  lemma FetchOutcome(s: State, step: Step)
    requires Inv(s) && Enabled(s, step) && step.event.FetchDone?
    ensures Outcome(s, Next(s, step), step.event, if Spawns(s, step) then step.env.spawned else None,
                    Supersedes(s, step), false)
  {
    FetchSafety.NextFetched(s, step);
    SpawnsExactly(s, step);
    if step.env.spawned.Some? {
      NewNumber(s, step);
    }
    if Runs(s, step) {
      var base := FetchBase(s, step.event.id, step.event.config, step.env);
      FetchBaseTaken(s, step.event.id, step.event.config, step.env);
      TakenOutcome(s, base, step.event);
      BaseIsIdle(s, step);
      RunsFrame(s, step);
      RunOutcome(s, base, Next(s, step), step.event, step.env, Spawns(s, step));
    } else {
      CurrentFetch(s, step.event.id);
      FetchIdle(s, step.event.id, step.event.config, step.env);
      TakenOutcome(s, Next(s, step), step.event);
    }
    hide Outcome, RunFrame, Inv, Next, Spawns, FetchBase, Fetched, FetchTaken, Exists;
  }

  lemma OtherOutcome(s: State, step: Step)
    requires Inv(s) && Enabled(s, step) && StartsNothing(step.event)
    ensures Outcome(s, Next(s, step), step.event, None, false, false)
  {
    hide Outcome, Disconnected, Watched, TimedOut, StateChangedTo, Exit, Cleanup, Restarted, FetchInv, GuardInv;
    match step.event
    case Disconnect =>
      DisconnectedIs(s, step.env);
      DisconnectOutcome(s, Disconnected(s, step.env), step.event);
    case ChildExit(pid) => ExitOutcome(s, pid);
    case ChildWatch(child, status) => WatchOutcome(s, child, status, step.env);
    case ConnectTimeout => TimeoutOutcome(s, step.env);
    case StateChanged(state) => StateOutcome(s, state);
    case Dispose =>
      CleanupIs(s, step.env);
      DisconnectOutcome(s, Cleanup(s, step.env), step.event);
    case Restart => RestartOutcome(s, step.env);
    case _ =>
  }

  /**
   * Whatever happens to the daemon, connection, flags, timer, processes and fetches end up as said above: in
   * particular a process is told to end exactly by what ends its attempt and by a timeout while it is connecting.
   */
  lemma StepOutcome(s: State, step: Step)
    requires Inv(s) && Enabled(s, step)
    ensures Outcome(s, Next(s, step), step.event, if Spawns(s, step) then step.env.spawned else None,
                    Supersedes(s, step), Asks(s, step))
  {
    if step.event.Connect? {
      ConnectOutcome(s, step);
    } else if step.event.FetchDone? {
      FetchOutcome(s, step);
    } else {
      SpawnsExactly(s, step);
      OtherOutcome(s, step);
    }
    hide Outcome, Next, Inv, Spawns, IsValid, Exists, CanStart;
  }
}
