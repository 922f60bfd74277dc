/** The reconnect callbacks as they update the editor and its contexts in place. */
module Editor {
  import opened Basics
  import opened Reconnect

  class AirvpnEditor {
    var busy: bool
    var cancellable: Option<bool>
    var uuid: Option<string>
    var refs: nat
    var disposed: bool
    var contexts: map<nat, Ctx>
    var nextCtx: nat
    var finished: seq<nat>

    ghost function View(): (s: State)
      reads this
    {
      State(busy, cancellable, uuid, refs, disposed, contexts, nextCtx, finished)
    }

    constructor (uuid: Option<string>)
      ensures View() == Opened(uuid)
    {
      this.uuid := uuid;
      busy, cancellable, refs, disposed, contexts, nextCtx, finished := false, None, 1, false, map[], 0, [];
    }

    method Dispose()
      modifies this
      ensures View() == Disposed(old(View()))
    {
      if cancellable.Some? {
        cancellable := Some(true);
      }
      uuid := None;
      disposed := true;
    }

    method DropReference()
      requires refs > 0
      modifies this
      ensures View() == Unref(old(View()))
    {
      refs := refs - 1;
      if refs == 0 {
        Dispose();
      }
    }

    /** reconnect_ctx_finish: the context is freed, and its reference to the editor with it. */
    method CtxFinish(id: nat)
      requires View().Valid() && id in contexts
      modifies this
      ensures View() == Finish(old(View()), id)
    {
      FewerContexts(contexts, id);
      busy := false;
      cancellable := None;
      contexts := contexts - {id};
      finished := finished + [id];
      DropReference();
    }

    /** What the context itself holds makes no difference when it is freed. */
    lemma FinishIgnores(s: State, id: nat, c: Ctx)
      requires s.Valid() && id in s.contexts
      ensures Finish(Await(s, id, c), id) == Finish(s, id)
    {
      assert s.contexts[id := c] - {id} == s.contexts - {id};
    }

    /** The context `id` after its fields were assigned. */
    method Update(id: nat, c: Ctx)
      requires View().Valid() && id in contexts
      modifies `contexts
      ensures id in contexts && contexts[id] == c
      ensures View() == Await(old(View()), id, c)
    {
      contexts := contexts[id := c];
    }

    /** reconnect_find_active: the first active connection with the editor's UUID. */
    method FindActive(actives: seq<Option<string>>) returns (at: Option<nat>)
      ensures at.Some? <==> uuid in actives
      ensures at.Some? ==> at.value < |actives| && actives[at.value] == uuid
      ensures at.Some? ==> forall k :: 0 <= k < at.value ==> actives[k] != uuid
    {
      var i := 0;
      while i < |actives|
        invariant i <= |actives| && forall k :: 0 <= k < i ==> actives[k] != uuid
      {
        if actives[i] == uuid {
          return Some(i);
        }
        i := i + 1;
      }
      return None;
    }

    method ActivateDone(id: nat, result: Result)
      requires View().Valid() && id in contexts
      modifies this
      ensures View() == Reported(old(View()), Event.ActivateDone(id, result))
    {
      CtxFinish(id);
    }

    /** A tick of the poll; the timer goes on while the connection is still active. */
    method PollDeactivated(id: nat, actives: seq<Option<string>>) returns (again: bool)
      requires View().Valid() && id in contexts && contexts[id].pending == Poll
      modifies this
      ensures View() == Reported(old(View()), PollTick(id, actives))
      ensures again <==> id in contexts && contexts[id].pending == Poll
    {
      hide Finish;
      ghost var s := View();
      var ctx := contexts[id];
      var active := FindActive(actives);
      if active.Some? {
        ctx := ctx.(pollCount := ctx.pollCount + 1);
        if ctx.pollCount > MAX_POLLS {
          ctx := ctx.(pollId := false);
          Update(id, ctx);
          FinishIgnores(s, id, ctx);
          CtxFinish(id);
          return false;
        }
        Update(id, ctx);
        return true;
      }
      ctx := ctx.(pollId := false, pending := Activate);
      Update(id, ctx);
      return false;
    }

    method DeactivateDone(id: nat, result: Result)
      requires View().Valid() && id in contexts
      modifies this
      ensures View() == Reported(old(View()), Event.DeactivateDone(id, result))
    {
      hide Finish;
      if !result.Done? {
        CtxFinish(id);
        return;
      }
      Update(id, contexts[id].(pollCount := 0, pollId := true, pending := Poll));
    }

    method CommitDone(id: nat, result: Result, actives: seq<Option<string>>)
      requires View().Valid() && id in contexts
      modifies this
      ensures View() == Reported(old(View()), Event.CommitDone(id, result, actives))
    {
      hide Finish;
      if !result.Done? {
        CtxFinish(id);
        return;
      }
      var active := FindActive(actives);
      if active.None? {
        CtxFinish(id);
        return;
      }
      Update(id, contexts[id].(pending := Deactivate));
    }

    /** Assigning to a context twice leaves the second values. */
    lemma AwaitTwice(s: State, id: nat, c: Ctx, c': Ctx)
      requires s.Valid() && id in s.contexts
      ensures Await(Await(s, id, c), id, c') == Await(s, id, c')
    {
      assert s.contexts[id := c][id := c'] == s.contexts[id := c'];
    }

    method ClientReady(id: nat, result: Result, remoteFound: bool, updated: bool)
      requires View().Valid() && id in contexts
      modifies this
      ensures View() == Reported(old(View()), Event.ClientReady(id, result, remoteFound, updated))
    {
      hide Finish, Await;
      ghost var s := View();
      if !result.Done? {
        CtxFinish(id);
        return;
      }
      var ctx := contexts[id].(client := true);
      Update(id, ctx);
      FinishIgnores(s, id, ctx);
      if !remoteFound {
        CtxFinish(id);
        return;
      }
      ctx := ctx.(remote := true);
      AwaitTwice(s, id, contexts[id], ctx);
      Update(id, ctx);
      FinishIgnores(s, id, ctx);
      if !updated {
        CtxFinish(id);
        return;
      }
      AwaitTwice(s, id, ctx, ctx.(pending := Commit));
      Update(id, ctx.(pending := Commit));
    }

    method ButtonClicked()
      requires View().Valid()
      modifies this
      ensures View() == Clicked(old(View()))
    {
      if busy {
        return;
      }
      if uuid.None? || uuid.value == "" {
        return;
      }
      busy := true;
      cancellable := Some(false);
      refs := refs + 1;
      contexts := contexts[nextCtx := Ctx(false, false, false, 0, NewClient)];
      nextCtx := nextCtx + 1;
    }
  }
}
