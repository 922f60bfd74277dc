/** The editor's "Apply & Reconnect": a chain of asynchronous steps with a bounded poll. */
module Reconnect {
  import opened Basics

  const MAX_POLLS := 20

  /** The one operation a context waits for. */
  datatype Operation = NewClient | Commit | Deactivate | Poll | Activate

  /** A context holds a reference to its editor from the click until it is freed. */
  datatype Ctx = Ctx(client: bool, remote: bool, pollId: bool, pollCount: nat, pending: Operation)

  /** The result of an asynchronous call. */
  datatype Result = Done | Cancelled | Failed(message: string)

  /** The editor; `finished` lists the contexts that were freed, in order. */
  datatype State = State(
    busy: bool,
    cancellable: Option<bool>,
    uuid: Option<string>,
    refs: nat,
    disposed: bool,
    contexts: map<nat, Ctx>,
    nextCtx: nat,
    finished: seq<nat>)
  {
    /** Every context holds a reference. */
    predicate Valid() { |contexts| <= refs }
  }

  datatype Event =
    | Click
    | ClientReady(id: nat, result: Result, remoteFound: bool, updated: bool)
    | CommitDone(id: nat, result: Result, actives: seq<Option<string>>)
    | DeactivateDone(id: nat, result: Result)
    | PollTick(id: nat, actives: seq<Option<string>>)
    | ActivateDone(id: nat, result: Result)
    | TakeRef
    | DropRef

  // ----- The callbacks

  lemma FewerContexts(contexts: map<nat, Ctx>, id: nat)
    requires id in contexts
    ensures |contexts - {id}| == |contexts| - 1
  {
    assert (contexts - {id}).Keys == contexts.Keys - {id};
  }

  lemma MoreContexts(contexts: map<nat, Ctx>, id: nat, c: Ctx)
    ensures |contexts[id := c]| == if id in contexts then |contexts| else |contexts| + 1
  {
    assert contexts[id := c].Keys == contexts.Keys + {id};
  }

  /** dispose: an operation in flight is cancelled, and the UUID is cleared. */
  function Disposed(s: State): (s': State) {
    s.(cancellable := if s.cancellable.Some? then Some(true) else None, uuid := None, disposed := true)
  }

  /** g_object_unref: the last reference disposes of the editor. */
  function Unref(s: State): (s': State)
    requires s.refs > 0
    ensures s'.contexts == s.contexts && s'.refs == s.refs - 1 && s'.nextCtx == s.nextCtx
  {
    if s.refs == 1 then Disposed(s.(refs := 0)) else s.(refs := s.refs - 1)
  }

  /** reconnect_ctx_finish. */
  function Finish(s: State, id: nat): (s': State)
    requires s.Valid() && id in s.contexts
    ensures s'.Valid() && s'.nextCtx == s.nextCtx && s'.contexts == s.contexts - {id}
  {
    FewerContexts(s.contexts, id);
    Unref(s.(busy := false, cancellable := None, contexts := s.contexts - {id}, finished := s.finished + [id]))
  }

  function Await(s: State, id: nat, c: Ctx): (s': State)
    requires s.Valid() && id in s.contexts
    ensures s'.Valid() && s'.nextCtx == s.nextCtx
  {
    MoreContexts(s.contexts, id, c);
    s.(contexts := s.contexts[id := c])
  }

  function Clicked(s: State): (s': State)
    requires s.Valid()
    ensures s'.Valid()
  {
    if s.busy || s.uuid.GetOr("") == "" then s
    else
      var c := Ctx(false, false, false, 0, NewClient);
      MoreContexts(s.contexts, s.nextCtx, c);
      s.(busy := true, cancellable := Some(false), refs := s.refs + 1,
      contexts := s.contexts[s.nextCtx := c], nextCtx := s.nextCtx + 1)
  }

  /** What happens to the context `id` when the operation it waits for reports. */
  function Reported(s: State, event: Event): (s': State)
    requires s.Valid() && IsReport(event) && event.id in s.contexts
    ensures s'.Valid() && s'.nextCtx == s.nextCtx
  {
    var id, c := event.id, s.contexts[event.id];
    match event
    case ClientReady(_, result, remoteFound, updated) =>
      if !result.Done? || !remoteFound || !updated then Finish(s, id)
      else Await(s, id, c.(client := true, remote := true, pending := Commit))
    case CommitDone(_, result, actives) =>
      if !result.Done? || s.uuid !in actives then Finish(s, id) else Await(s, id, c.(pending := Deactivate))
    case DeactivateDone(_, result) =>
      if !result.Done? then Finish(s, id) else Await(s, id, c.(pollCount := 0, pollId := true, pending := Poll))
    case PollTick(_, actives) =>
      if s.uuid !in actives then Await(s, id, c.(pollId := false, pending := Activate))
      else if c.pollCount + 1 > MAX_POLLS then Finish(s, id)
      else Await(s, id, c.(pollCount := c.pollCount + 1))
    case ActivateDone(_, _) => Finish(s, id)
  }

  predicate IsReport(event: Event) { !event.Click? && !event.TakeRef? && !event.DropRef? }

  /** The operation that an event reports on. */
  function Reports(event: Event): (op: Operation)
    requires IsReport(event)
  {
    match event
    case ClientReady(_, _, _, _) => NewClient
    case CommitDone(_, _, _) => Commit
    case DeactivateDone(_, _) => Deactivate
    case PollTick(_, _) => Poll
    case ActivateDone(_, _) => Activate
  }

  /**
   * Operations report once, while their context waits for them, and the editor is only touched while somebody holds it;
   * a reference can only be dropped by one who has it.
   */
  predicate Enabled(s: State, event: Event) {
    if IsReport(event) then event.id in s.contexts && s.contexts[event.id].pending == Reports(event)
    else s.refs > 0 && (event.DropRef? ==> |s.contexts| < s.refs)
  }

  function Next(s: State, event: Event): (s': State)
    requires s.Valid() && Enabled(s, event)
    ensures s'.Valid()
  {
    match event
    case Click => Clicked(s)
    case TakeRef => s.(refs := s.refs + 1)
    case DropRef => Unref(s)
    case _ => Reported(s, event)
  }

  /** A new editor for a connection, which is not saved yet when there is no UUID. */
  function Opened(uuid: Option<string>): (s: State)
    ensures s.Valid()
  {
    State(false, None, uuid, 1, false, map[], 0, [])
  }

  predicate IsRun(s: State, events: seq<Event>)
    requires s.Valid()
    decreases |events|, 0
  {
    events == [] ||
      (IsRun(s, events[..|events| - 1]) && Enabled(After(s, events[..|events| - 1]), events[|events| - 1]))
  }

  function After(s: State, events: seq<Event>): (s': State)
    requires s.Valid() && IsRun(s, events)
    ensures s'.Valid()
    decreases |events|, 1
  {
    if events == [] then s else Next(After(s, events[..|events| - 1]), events[|events| - 1])
  }

  // ----- The invariant

  ghost predicate CtxInv(c: Ctx) {
    && (c.pollId <==> c.pending == Poll)
    && c.pollCount <= MAX_POLLS
    && (c.pending != NewClient ==> c.client && c.remote)
    && (c.pending in {NewClient, Commit, Deactivate} ==> c.pollCount == 0)
  }

  /** The context `id` has been freed as often as it should: once if it is gone, and else never. */
  ghost predicate FreedOnce(s: State, id: nat) {
    multiset(s.finished)[id] == if id < s.nextCtx && id !in s.contexts then 1 else 0
  }

  ghost predicate Inv(s: State, uuid: Option<string>) {
    && s.Valid()
    && (forall i, j :: i in s.contexts && j in s.contexts ==> i == j)
    && (forall i :: i in s.contexts ==> i < s.nextCtx && CtxInv(s.contexts[i]))
    && (s.busy <==> exists i :: i in s.contexts)
    && s.cancellable == (if s.busy then Some(false) else None)
    && (s.disposed <==> s.refs == 0)
    && s.uuid == (if s.disposed then None else uuid)
    && forall id: nat :: FreedOnce(s, id)
  }

  lemma OpenedInv(uuid: Option<string>)
    ensures Inv(Opened(uuid), uuid)
  {
  }

  lemma ClickedInv(s: State, uuid: Option<string>)
    requires Inv(s, uuid) && s.refs > 0
    ensures Inv(Clicked(s), uuid)
  {
    var s' := Clicked(s);
    if s' != s {
      assert s.nextCtx in s'.contexts;
      forall id: nat ensures FreedOnce(s', id) {
        assert FreedOnce(s, id);
      }
    }
  }

  lemma FinishInv(s: State, id: nat, uuid: Option<string>)
    requires Inv(s, uuid) && id in s.contexts
    ensures Inv(Finish(s, id), uuid) && !Finish(s, id).busy
  {
    var s' := Finish(s, id);
    assert s'.contexts == s.contexts - {id};
    assert forall i :: i in s.contexts ==> i == id;
    forall k: nat ensures FreedOnce(s', k) {
      assert FreedOnce(s, k);
      assert multiset(s.finished + [id])[k] == multiset(s.finished)[k] + if k == id then 1 else 0;
    }
  }

  lemma AwaitInv(s: State, id: nat, c: Ctx, uuid: Option<string>)
    requires Inv(s, uuid) && id in s.contexts && CtxInv(c)
    ensures Inv(Await(s, id, c), uuid)
  {
    var s' := Await(s, id, c);
    assert s'.contexts.Keys == s.contexts.Keys;
    assert id in s'.contexts;
    forall k: nat ensures FreedOnce(s', k) {
      assert FreedOnce(s, k);
    }
  }

  lemma ReportedInv(s: State, event: Event, uuid: Option<string>)
    requires Inv(s, uuid) && IsReport(event) && Enabled(s, event)
    ensures Inv(Reported(s, event), uuid)
  {
    hide Finish, Await;
    var id, c := event.id, s.contexts[event.id];
    assert CtxInv(c);
    FinishInv(s, id, uuid);
    forall c': Ctx | CtxInv(c') ensures Inv(Await(s, id, c'), uuid) {
      AwaitInv(s, id, c', uuid);
    }
    hide Inv;
  }

  lemma RefsInv(s: State, event: Event, uuid: Option<string>)
    requires Inv(s, uuid) && Enabled(s, event) && (event.TakeRef? || event.DropRef?)
    ensures Inv(Next(s, event), uuid)
  {
    var s' := Next(s, event);
    forall k: nat ensures FreedOnce(s', k) {
      assert FreedOnce(s, k);
    }
    if event.DropRef? && s.refs == 1 {
      assert |s.contexts| == 0;
      assert !exists i :: i in s.contexts;
    }
  }

  lemma StepInv(s: State, event: Event, uuid: Option<string>)
    requires Inv(s, uuid) && Enabled(s, event)
    ensures Inv(Next(s, event), uuid)
  {
    hide Clicked, Reported, Inv;
    match event
    case Click => ClickedInv(s, uuid);
    case TakeRef => RefsInv(s, event, uuid);
    case DropRef => RefsInv(s, event, uuid);
    case _ => ReportedInv(s, event, uuid);
  }

  lemma {:induction false} RunInv(uuid: Option<string>, events: seq<Event>)
    requires IsRun(Opened(uuid), events)
    ensures Inv(After(Opened(uuid), events), uuid)
    decreases |events|
  {
    if events == [] {
      OpenedInv(uuid);
    } else {
      RunInv(uuid, events[..|events| - 1]);
      StepInv(After(Opened(uuid), events[..|events| - 1]), events[|events| - 1], uuid);
    }
    hide Inv, Next, Enabled;
  }

  /**
   * Whatever happens to an editor: it is busy exactly while it has a context, which is then the only one; a context is
   * freed once it is gone and never before; and while there is one, the editor is not disposed of, so that neither is
   * the operation in flight cancelled nor the UUID lost that the poll looks for.
   */
  lemma FreedExactlyOnce(uuid: Option<string>, events: seq<Event>, i: nat, j: nat)
    requires IsRun(Opened(uuid), events)
    ensures var s := After(Opened(uuid), events);
            && (s.busy <==> s.contexts != map[])
            && (i in s.contexts && j in s.contexts ==> i == j)
            && multiset(s.finished)[i] == (if i < s.nextCtx && i !in s.contexts then 1 else 0)
            && (s.contexts != map[] ==> !s.disposed && s.cancellable == Some(false) && s.uuid == uuid)
            && (s.contexts == map[] ==> s.cancellable == None)
  {
    RunInv(uuid, events);
    var s := After(Opened(uuid), events);
    assert FreedOnce(s, i);
    hide After, IsRun;
    if s.contexts != map[] {
      var k :| k in s.contexts;
      assert s.contexts.Keys != {};
      assert |s.contexts| == |s.contexts.Keys| > 0;
    }
  }

  // ----- Bounds

  predicate IsFor(event: Event, id: nat) { IsReport(event) && event.id == id }

  /** The number of reports to the context `id`. */
  function ReportsTo(events: seq<Event>, id: nat): (n: nat)
    decreases |events|
  {
    if events == [] then 0
    else ReportsTo(events[..|events| - 1], id) + if IsFor(events[|events| - 1], id) then 1 else 0
  }

  function TicksOf(events: seq<Event>, id: nat): (n: nat)
    decreases |events|
  {
    if events == [] then 0
    else
      var last := events[|events| - 1];
      TicksOf(events[..|events| - 1], id) + if last.PollTick? && last.id == id then 1 else 0
  }

  /** How many more reports a context can take. */
  function Rank(s: State, id: nat): (n: int) {
    if id !in s.contexts then if id < s.nextCtx then 0 else 25
    else
      match s.contexts[id].pending
      case NewClient => 25
      case Commit => 24
      case Deactivate => 23
      case Poll => 22 - s.contexts[id].pollCount
      case Activate => 1
  }

  function TickRank(s: State, id: nat): (n: int) {
    if id !in s.contexts then if id < s.nextCtx then 0 else 21
    else
      match s.contexts[id].pending
      case Poll => 21 - s.contexts[id].pollCount
      case Activate => 0
      case _ => 21
  }

  lemma StepRank(s: State, event: Event, uuid: Option<string>, id: nat)
    requires Inv(s, uuid) && Enabled(s, event)
    ensures Rank(Next(s, event), id) + (if IsFor(event, id) then 1 else 0) <= Rank(s, id)
    ensures TickRank(Next(s, event), id) + (if event.PollTick? && event.id == id then 1 else 0) <= TickRank(s, id)
  {
    hide FreedOnce, Disposed;
    if IsReport(event) {
      assert CtxInv(s.contexts[event.id]);
    }
  }

  lemma {:induction false} RunRank(uuid: Option<string>, events: seq<Event>, id: nat)
    requires IsRun(Opened(uuid), events)
    ensures ReportsTo(events, id) + Rank(After(Opened(uuid), events), id) <= 25
    ensures TicksOf(events, id) + TickRank(After(Opened(uuid), events), id) <= 21
    decreases |events|
  {
    if events != [] {
      var before, event := events[..|events| - 1], events[|events| - 1];
      RunRank(uuid, before, id);
      RunInv(uuid, before);
      StepRank(After(Opened(uuid), before), event, uuid, id);
    }
    hide Inv, Next, Enabled, IsFor;
  }

  /** A context polls at most 21 times and is gone after at most 25 reports. */
  lemma Bounded(uuid: Option<string>, events: seq<Event>, id: nat)
    requires IsRun(Opened(uuid), events)
    ensures TicksOf(events, id) <= 21 && ReportsTo(events, id) <= 25
    ensures ReportsTo(events, id) == 25 ==>
              id !in After(Opened(uuid), events).contexts && multiset(After(Opened(uuid), events).finished)[id] == 1
  {
    RunRank(uuid, events, id);
    RunInv(uuid, events);
    var s := After(Opened(uuid), events);
    assert FreedOnce(s, id);
    if id in s.contexts {
      assert CtxInv(s.contexts[id]);
    } else if id >= s.nextCtx {
      NoReports(uuid, events, id);
    }
    hide After, IsRun, ReportsTo, TicksOf;
  }

  lemma {:induction false} NoReports(uuid: Option<string>, events: seq<Event>, id: nat)
    requires IsRun(Opened(uuid), events) && id >= After(Opened(uuid), events).nextCtx
    ensures ReportsTo(events, id) == 0
    decreases |events|
  {
    if events != [] {
      var before, event := events[..|events| - 1], events[|events| - 1];
      RunInv(uuid, before);
      NextCtxGrows(After(Opened(uuid), before), event);
      NoReports(uuid, before, id);
    }
    hide Next;
  }

  lemma NextCtxGrows(s: State, event: Event)
    requires s.Valid() && Enabled(s, event)
    ensures s.nextCtx <= Next(s, event).nextCtx
  {
    hide Reported, Unref;
  }

  /** The report of an operation with the given outcome. */
  function ReportOf(
    op: Operation, id: nat, result: Result, remoteFound: bool, updated: bool, actives: seq<Option<string>>)
    : (event: Event)
  {
    match op
    case NewClient => ClientReady(id, result, remoteFound, updated)
    case Commit => CommitDone(id, result, actives)
    case Deactivate => DeactivateDone(id, result)
    case Poll => PollTick(id, actives)
    case Activate => ActivateDone(id, result)
  }

  /** A context is never stuck: whatever the outcome of its operation, the run goes on with the report of it. */
  lemma Progress(
    uuid: Option<string>, events: seq<Event>, id: nat,
    result: Result, remoteFound: bool, updated: bool, actives: seq<Option<string>>)
    requires IsRun(Opened(uuid), events) && id in After(Opened(uuid), events).contexts
    ensures var op := After(Opened(uuid), events).contexts[id].pending;
            var events' := events + [ReportOf(op, id, result, remoteFound, updated, actives)];
            IsRun(Opened(uuid), events') && ReportsTo(events', id) == ReportsTo(events, id) + 1
  {
    var s := After(Opened(uuid), events);
    var event := ReportOf(s.contexts[id].pending, id, result, remoteFound, updated, actives);
    hide After, IsRun, ReportsTo, IsFor, Enabled, ReportOf;
    ReportEnabled(s, id, result, remoteFound, updated, actives);
    ReportGoesOn(uuid, events, id, event);
  }

  lemma ReportEnabled(s: State, id: nat, result: Result, remoteFound: bool, updated: bool, actives: seq<Option<string>>)
    requires id in s.contexts
    ensures var event := ReportOf(s.contexts[id].pending, id, result, remoteFound, updated, actives);
            IsFor(event, id) && Enabled(s, event)
  {
  }

  lemma ReportGoesOn(uuid: Option<string>, events: seq<Event>, id: nat, event: Event)
    requires IsRun(Opened(uuid), events) && IsFor(event, id) && Enabled(After(Opened(uuid), events), event)
    ensures IsRun(Opened(uuid), events + [event]) && ReportsTo(events + [event], id) == ReportsTo(events, id) + 1
  {
    hide IsFor, Enabled, Opened;
    var events' := events + [event];
    assert events'[..|events'| - 1] == events && events'[|events'| - 1] == event;
  }

  // ----- Why a connection is activated

  /** The settings were saved while the connection was active. */
  predicate SavedActive(event: Event, id: nat, uuid: Option<string>) {
    event.CommitDone? && event.id == id && event.result.Done? && uuid in event.actives
  }

  /** A poll found the connection gone. */
  predicate SeenGone(event: Event, id: nat, uuid: Option<string>) {
    event.PollTick? && event.id == id && uuid !in event.actives
  }

  predicate IsPast(s: State, id: nat) { id in s.contexts && s.contexts[id].pending in {Deactivate, Poll, Activate} }

  lemma StepIntoPast(s: State, event: Event, uuid: Option<string>, id: nat)
    requires Inv(s, uuid) && Enabled(s, event) && IsPast(Next(s, event), id)
    ensures IsPast(s, id) || SavedActive(event, id, uuid)
    ensures Next(s, event).contexts[id].pending == Activate ==>
              IsPast(s, id) && (s.contexts[id].pending == Activate || SeenGone(event, id, uuid))
  {
    hide FreedOnce, CtxInv;
    if IsReport(event) {
      NotDisposed(s, uuid, event.id);
    }
  }

  lemma NotDisposed(s: State, uuid: Option<string>, id: nat)
    requires Inv(s, uuid) && id in s.contexts
    ensures !s.disposed && s.uuid == uuid
  {
    hide FreedOnce, CtxInv;
    assert s.contexts.Keys != {};
    assert |s.contexts| == |s.contexts.Keys| > 0;
  }

  lemma {:induction false} SavedBefore(uuid: Option<string>, events: seq<Event>, id: nat) returns (i: nat)
    requires IsRun(Opened(uuid), events) && IsPast(After(Opened(uuid), events), id)
    ensures i < |events| && SavedActive(events[i], id, uuid)
    decreases |events|
  {
    hide Inv, Next, Enabled, SavedActive;
    var n := |events| - 1;
    RunInv(uuid, events[..n]);
    var s := After(Opened(uuid), events[..n]);
    StepIntoPast(s, events[n], uuid, id);
    if IsPast(s, id) {
      i := SavedBefore(uuid, events[..n], id);
    } else {
      i := n;
    }
  }

  /** A connection is only activated after it was saved while active, and after a later poll found it gone. */
  lemma {:induction false} ActivatedBecause(uuid: Option<string>, events: seq<Event>, id: nat) returns (i: nat, j: nat)
    requires IsRun(Opened(uuid), events)
    requires id in After(Opened(uuid), events).contexts && After(Opened(uuid), events).contexts[id].pending == Activate
    ensures i < j < |events| && SavedActive(events[i], id, uuid) && SeenGone(events[j], id, uuid)
    decreases |events|
  {
    hide Inv, Next, Enabled, SavedActive, SeenGone;
    var n := |events| - 1;
    RunInv(uuid, events[..n]);
    var s := After(Opened(uuid), events[..n]);
    StepIntoPast(s, events[n], uuid, id);
    if s.contexts[id].pending == Activate {
      i, j := ActivatedBecause(uuid, events[..n], id);
    } else {
      i := SavedBefore(uuid, events[..n], id);
      j := n;
    }
  }

  // ----- That it is activated

  predicate Waits(s: State, id: nat, op: Operation) { id in s.contexts && s.contexts[id].pending == op }

  /** Which step makes a context wait for which operation. */
  ghost predicate StageAfter(s: State, s': State, event: Event, uuid: Option<string>, id: nat, ticks: nat) {
    && (Waits(s', id, NewClient) <==>
        || (event.Click? && !s.busy && uuid.Some? && uuid.value != "" && !s.disposed && id == s.nextCtx)
        || (Waits(s, id, NewClient) && !IsFor(event, id)))
    && (Waits(s', id, Commit) <==>
        event == ClientReady(id, Done, true, true) || (Waits(s, id, Commit) && !IsFor(event, id)))
    && (Waits(s', id, Deactivate) <==>
        || (event.CommitDone? && event.id == id && event.result.Done? && uuid in event.actives)
        || (Waits(s, id, Deactivate) && !IsFor(event, id)))
    && (Waits(s', id, Poll) <==>
        || event == DeactivateDone(id, Done)
        || (Waits(s, id, Poll) && (IsFor(event, id) ==> event.PollTick? && uuid in event.actives && ticks < 20)))
    && (Waits(s', id, Activate) <==>
        || (event.PollTick? && event.id == id && uuid !in event.actives)
        || (Waits(s, id, Activate) && !IsFor(event, id)))
  }

  lemma ReportStage(s: State, event: Event, uuid: Option<string>, id: nat, ticks: nat)
    requires Inv(s, uuid) && Enabled(s, event) && IsReport(event)
    requires Waits(s, id, Poll) ==> s.contexts[id].pollCount == ticks
    ensures StageAfter(s, Next(s, event), event, uuid, id, ticks)
  {
    NotDisposed(s, uuid, event.id);
    OnlyOne(s, uuid, event.id, id);
    hide Inv, StageAfter;
    if event.id == id {
      OwnStage(s, event, uuid, id, ticks);
    } else {
      ForeignStage(s, event, uuid, id, ticks);
    }
  }

  lemma OwnStage(s: State, event: Event, uuid: Option<string>, id: nat, ticks: nat)
    requires s.Valid() && Enabled(s, event) && IsFor(event, id) && s.uuid == uuid
    requires Waits(s, id, Poll) ==> s.contexts[id].pollCount == ticks
    ensures StageAfter(s, Next(s, event), event, uuid, id, ticks)
  {
    hide StageAfter;
    match event
    case ClientReady(_, _, _, _) => OwnReport(s, event, uuid, id, ticks);
    case CommitDone(_, _, _) => OwnReport(s, event, uuid, id, ticks);
    case DeactivateDone(_, _) => OwnReport(s, event, uuid, id, ticks);
    case PollTick(_, actives) => OwnTick(s, actives, uuid, id, ticks);
    case ActivateDone(_, _) => OwnReport(s, event, uuid, id, ticks);
  }

  lemma OwnReport(s: State, event: Event, uuid: Option<string>, id: nat, ticks: nat)
    requires s.Valid() && Enabled(s, event) && IsFor(event, id) && s.uuid == uuid && !event.PollTick?
    ensures StageAfter(s, Next(s, event), event, uuid, id, ticks)
  {
    FinishKeeps(s, id);
    hide Finish, State.Valid;
  }

  lemma OwnTick(s: State, actives: seq<Option<string>>, uuid: Option<string>, id: nat, ticks: nat)
    requires s.Valid() && Enabled(s, PollTick(id, actives)) && s.uuid == uuid && s.contexts[id].pollCount == ticks
    ensures StageAfter(s, Next(s, PollTick(id, actives)), PollTick(id, actives), uuid, id, ticks)
  {
    FinishKeeps(s, id);
    hide Finish, State.Valid;
  }

  lemma ForeignStage(s: State, event: Event, uuid: Option<string>, id: nat, ticks: nat)
    requires s.Valid() && Enabled(s, event) && IsReport(event) && event.id != id && id !in s.contexts
    ensures StageAfter(s, Next(s, event), event, uuid, id, ticks)
  {
    FinishKeeps(s, event.id);
    hide Finish, State.Valid;
  }

  lemma OnlyOne(s: State, uuid: Option<string>, i: nat, j: nat)
    requires Inv(s, uuid) && i in s.contexts
    ensures i != j ==> j !in s.contexts
  {
  }

  lemma FinishKeeps(s: State, id: nat)
    requires s.Valid() && id in s.contexts
    ensures Finish(s, id).contexts == s.contexts - {id}
  {
  }

  lemma OtherStage(s: State, event: Event, uuid: Option<string>, id: nat, ticks: nat)
    requires Inv(s, uuid) && Enabled(s, event) && !IsReport(event)
    ensures StageAfter(s, Next(s, event), event, uuid, id, ticks)
  {
    hide FreedOnce, CtxInv;
  }

  /** While a context polls, its counter counts the ticks. */
  lemma {:induction false} CountsTicks(uuid: Option<string>, events: seq<Event>, id: nat)
    requires IsRun(Opened(uuid), events)
    ensures var s := After(Opened(uuid), events);
            && (Waits(s, id, Poll) ==> s.contexts[id].pollCount == TicksOf(events, id))
            && (id !in s.contexts && id >= s.nextCtx ==> TicksOf(events, id) == 0)
            && (id in s.contexts && s.contexts[id].pending in {NewClient, Commit, Deactivate} ==>
                  TicksOf(events, id) == 0)
    decreases |events|
  {
    if events != [] {
      var before, event := events[..|events| - 1], events[|events| - 1];
      CountsTicks(uuid, before, id);
      RunInv(uuid, before);
      CountStep(After(Opened(uuid), before), event, uuid, id, TicksOf(before, id));
    }
    hide Inv, Next, Enabled, Waits;
  }

  lemma CountStep(s: State, event: Event, uuid: Option<string>, id: nat, ticks: nat)
    requires Inv(s, uuid) && Enabled(s, event)
    requires Waits(s, id, Poll) ==> s.contexts[id].pollCount == ticks
    requires id !in s.contexts && id >= s.nextCtx ==> ticks == 0
    requires id in s.contexts && s.contexts[id].pending in {NewClient, Commit, Deactivate} ==> ticks == 0
    ensures var s' := Next(s, event); var ticks' := ticks + if event.PollTick? && event.id == id then 1 else 0;
            && (Waits(s', id, Poll) ==> s'.contexts[id].pollCount == ticks')
            && (id !in s'.contexts && id >= s'.nextCtx ==> ticks' == 0)
            && (id in s'.contexts && s'.contexts[id].pending in {NewClient, Commit, Deactivate} ==> ticks' == 0)
  {
    hide FreedOnce;
  }

  /**
   * In every run: a context waits for its client after the click that opened it, and for each further operation
   * exactly from the successful report of the one before on, until the report of its own; it goes on polling for up
   * to twenty ticks that see the connection active, and activates it once a tick does not.
   */
  lemma StageExactly(uuid: Option<string>, events: seq<Event>, event: Event, id: nat)
    requires IsRun(Opened(uuid), events) && Enabled(After(Opened(uuid), events), event)
    ensures var s := After(Opened(uuid), events); StageAfter(s, Next(s, event), event, uuid, id, TicksOf(events, id))
  {
    RunInv(uuid, events);
    CountsTicks(uuid, events, id);
    var s := After(Opened(uuid), events);
    hide After, IsRun, Inv, Next, Enabled, StageAfter, TicksOf;
    if IsReport(event) {
      ReportStage(s, event, uuid, id, TicksOf(events, id));
    } else {
      OtherStage(s, event, uuid, id, TicksOf(events, id));
    }
  }

  // A run of successes.

  function Ticks(id: nat, polls: seq<seq<Option<string>>>): (events: seq<Event>) {
    if polls == [] then [] else Ticks(id, polls[..|polls| - 1]) + [PollTick(id, polls[|polls| - 1])]
  }

  /** The run goes on with an event that can happen. */
  lemma RunMore(uuid: Option<string>, events: seq<Event>, event: Event)
    requires IsRun(Opened(uuid), events) && Enabled(After(Opened(uuid), events), event)
    ensures IsRun(Opened(uuid), events + [event])
    ensures After(Opened(uuid), events + [event]) == Next(After(Opened(uuid), events), event)
    ensures forall id :: TicksOf(events + [event], id) ==
                         TicksOf(events, id) + if event.PollTick? && event.id == id then 1 else 0
  {
    hide Enabled, Next, Opened;
    var events' := events + [event];
    assert events'[..|events'| - 1] == events && events'[|events'| - 1] == event;
  }

  lemma NoTicksYet(uuid: Option<string>, events: seq<Event>, id: nat)
    requires IsRun(Opened(uuid), events) && Waits(After(Opened(uuid), events), id, NewClient)
    ensures TicksOf(events, id) == 0
  {
    CountsTicks(uuid, events, id);
    hide After, IsRun;
  }

  /** The three reports that lead to polling. */
  function ToPolling(id: nat, saved: seq<Option<string>>): (events: seq<Event>) {
    [ClientReady(id, Done, true, true)] + ([CommitDone(id, Done, saved)] + [DeactivateDone(id, Done)])
  }

  lemma ReachesPolling(uuid: Option<string>, events: seq<Event>, id: nat, saved: seq<Option<string>>)
    requires IsRun(Opened(uuid), events) && Waits(After(Opened(uuid), events), id, NewClient) && uuid in saved
    ensures var events' := events + ToPolling(id, saved);
            && IsRun(Opened(uuid), events') && Waits(After(Opened(uuid), events'), id, Poll)
            && TicksOf(events', id) == 0
  {
    NoTicksYet(uuid, events, id);
    var a, b, c := ClientReady(id, Done, true, true), CommitDone(id, Done, saved), DeactivateDone(id, Done);
    var events1 := events + [a];
    var events2 := events1 + [b];
    assert events + ToPolling(id, saved) == events2 + [c];
    StageExactly(uuid, events, a, id);
    RunMore(uuid, events, a);
    StageExactly(uuid, events1, b, id);
    RunMore(uuid, events1, b);
    StageExactly(uuid, events2, c, id);
    RunMore(uuid, events2, c);
    hide After, IsRun, Next, TicksOf, ToPolling;
  }

  lemma {:induction false} KeepsPolling(
    uuid: Option<string>, events: seq<Event>, id: nat, polls: seq<seq<Option<string>>>)
    requires IsRun(Opened(uuid), events) && Waits(After(Opened(uuid), events), id, Poll) && TicksOf(events, id) == 0
    requires |polls| <= 20 && forall k :: 0 <= k < |polls| ==> uuid in polls[k]
    ensures var events' := events + Ticks(id, polls);
            && IsRun(Opened(uuid), events') && Waits(After(Opened(uuid), events'), id, Poll)
            && TicksOf(events', id) == |polls|
  {
    hide After, IsRun, Next, TicksOf;
    if polls == [] {
      assert events + Ticks(id, polls) == events;
    } else {
      var front, last := polls[..|polls| - 1], PollTick(id, polls[|polls| - 1]);
      KeepsPolling(uuid, events, id, front);
      var before := events + Ticks(id, front);
      assert events + Ticks(id, polls) == before + [last];
      StageExactly(uuid, before, last, id);
      RunMore(uuid, before, last);
    }
  }

  /**
   * A saved connection that is active, is deactivated, and is seen to be gone within twenty-one ticks is activated;
   * if all twenty-one see it active, the context gives up.
   */
  lemma SuccessActivates(
    uuid: Option<string>, events: seq<Event>, id: nat, saved: seq<Option<string>>, polls: seq<seq<Option<string>>>,
    last: seq<Option<string>>)
    requires IsRun(Opened(uuid), events) && Waits(After(Opened(uuid), events), id, NewClient)
    requires uuid in saved && |polls| <= 20 && forall k :: 0 <= k < |polls| ==> uuid in polls[k]
    ensures var events' := events + ToPolling(id, saved) + Ticks(id, polls) + [PollTick(id, last)];
            && IsRun(Opened(uuid), events')
            && (uuid !in last ==> Waits(After(Opened(uuid), events'), id, Activate))
            && (uuid in last ==> if |polls| < 20 then Waits(After(Opened(uuid), events'), id, Poll)
                                 else id !in After(Opened(uuid), events').contexts)
  {
    ReachesPolling(uuid, events, id, saved);
    var polling := events + ToPolling(id, saved);
    KeepsPolling(uuid, polling, id, polls);
    var ticked, tick := polling + Ticks(id, polls), PollTick(id, last);
    StageExactly(uuid, ticked, tick, id);
    RunMore(uuid, ticked, tick);
    hide After, IsRun, Next, TicksOf, Ticks, ToPolling;
  }
}
