/** The on-disk cache of generated profiles, one directory per connection. */
module Cache {
  import opened Basics
  import opened Generator

  const MAX_AGE_SECONDS := 90 * 24 * 3600

  /** What a readable meta file says; an absent time reads as 0 and an absent flag as false. */
  datatype Meta = Meta(hash: Option<string>, fetched: int, stale: bool)

  /** The profiles and the readable meta files, by the UUID of their connection. */
  datatype Files = Files(config: map<string, string>, meta: map<string, Meta>)

  /** How far a store gets: the directory, the profile and the meta file are separate writes. */
  datatype Disk = Disk(mkdirOk: bool, configOk: bool, metaOk: bool) {
    predicate Writes() { mkdirOk && configOk }
    predicate Completes() { Writes() && metaOk }
  }

  /** A profile is there and was stored for these parameters. */
  predicate Exists(files: Files, uuid: string, params: Params) {
    uuid in files.config && uuid in files.meta && files.meta[uuid].hash == Some(CacheKey(params))
  }

  /** It may be used without asking the generator. */
  predicate IsValid(files: Files, uuid: string, params: Params, now: int) {
    && Exists(files, uuid, params)
    && !files.meta[uuid].stale
    && 0 < files.meta[uuid].fetched
    && now - files.meta[uuid].fetched <= MAX_AGE_SECONDS
  }

  function Store(files: Files, uuid: string, params: Params, config: string, now: int, disk: Disk): (files': Files) {
    if !disk.Writes() then files
    else if !disk.metaOk then files.(config := files.config[uuid := config])
    else Files(files.config[uuid := config], files.meta[uuid := Meta(Some(CacheKey(params)), now, false)])
  }

  function MarkStale(files: Files, uuid: string, metaOk: bool): (files': Files) {
    if uuid in files.meta && metaOk then files.(meta := files.meta[uuid := files.meta[uuid].(stale := true)]) else files
  }

  /** The state directory, whose files the service overwrites. */
  class StateDir {
    var config: map<string, string>
    var meta: map<string, Meta>

    ghost function View(): (files: Files)
      reads this
    {
      Files(config, meta)
    }

    method LoadMeta(uuid: string) returns (loaded: Option<Meta>)
      ensures loaded == if uuid in meta then Some(meta[uuid]) else None
    {
      if uuid in meta {
        return Some(meta[uuid]);
      }
      return None;
    }

    method CheckCache(uuid: string, params: Params, acceptStale: bool, now: int) returns (hit: bool)
      ensures hit == if acceptStale then Exists(View(), uuid, params) else IsValid(View(), uuid, params, now)
    {
      if uuid !in config {
        return false;
      }
      var loaded := LoadMeta(uuid);
      if loaded.None? {
        return false;
      }
      var hash := CacheKey(params);
      if loaded.value.hash.None? || loaded.value.hash.value != hash {
        return false;
      }
      if acceptStale {
        return true;
      }
      if loaded.value.stale {
        return false;
      }
      var fetched := loaded.value.fetched;
      if fetched <= 0 || now - fetched > MAX_AGE_SECONDS {
        return false;
      }
      return true;
    }

    method Put(uuid: string, params: Params, contents: string, now: int, disk: Disk) returns (ok: bool)
      modifies this
      ensures ok == disk.Completes()
      ensures View() == Store(old(View()), uuid, params, contents, now, disk)
    {
      if !disk.mkdirOk {
        return false;
      }
      if !disk.configOk {
        return false;
      }
      config := config[uuid := contents];
      var record := Meta(Some(CacheKey(params)), now, false);
      if !disk.metaOk {
        return false;
      }
      meta := meta[uuid := record];
      return true;
    }

    method SetStale(uuid: string, metaOk: bool)
      modifies this
      ensures View() == MarkStale(old(View()), uuid, metaOk)
    {
      var loaded := LoadMeta(uuid);
      if loaded.None? {
        return;
      }
      var marked := loaded.value.(stale := true);
      if metaOk {
        meta := meta[uuid := marked];
      }
    }
  }

  // ----- Histories

  datatype Op =
    | StoreOp(uuid: string, params: Params, config: string, now: int, disk: Disk)
    | MarkOp(uuid: string, metaOk: bool)
  {
    /** The profile was written and so was its meta file. */
    predicate Stores(u: string) { StoreOp? && uuid == u && disk.mkdirOk && disk.configOk && disk.metaOk }
    /** The profile was written, whatever became of the meta file. */
    predicate Writes(u: string) { StoreOp? && uuid == u && disk.mkdirOk && disk.configOk }
    /** The profile was written and the meta file was not. */
    predicate Tears(u: string) { Writes(u) && !Stores(u) }
    predicate Marks(u: string) { MarkOp? && uuid == u && metaOk }
  }

  function Apply(files: Files, op: Op): (files': Files) {
    match op
    case StoreOp(uuid, params, config, now, disk) => Store(files, uuid, params, config, now, disk)
    case MarkOp(uuid, metaOk) => MarkStale(files, uuid, metaOk)
  }

  function Run(files: Files, ops: seq<Op>): (files': Files)
    decreases |ops|
  {
    if ops == [] then files else Apply(Run(files, ops[..|ops| - 1]), ops[|ops| - 1])
  }

  ghost predicate IsLastStore(ops: seq<Op>, u: string, i: nat) {
    i < |ops| && ops[i].Stores(u) && forall k :: i < k < |ops| ==> !ops[k].Stores(u)
  }

  ghost predicate IsLastWrite(ops: seq<Op>, u: string, i: nat) {
    i < |ops| && ops[i].Writes(u) && forall k :: i < k < |ops| ==> !ops[k].Writes(u)
  }

  ghost predicate MarkedAfter(ops: seq<Op>, u: string, i: nat) {
    exists k :: i < k < |ops| && ops[k].Marks(u)
  }

  lemma {:induction false} LastStore(ops: seq<Op>, u: string) returns (i: nat)
    ensures i <= |ops|
    ensures i < |ops| ==> IsLastStore(ops, u, i)
    ensures i == |ops| ==> forall k :: 0 <= k < |ops| ==> !ops[k].Stores(u)
  {
    i := 0;
    if ops != [] {
      var n := |ops| - 1;
      if ops[n].Stores(u) {
        i := n;
      } else {
        i := LastStore(ops[..n], u);
        if i == n {
          i := |ops|;
          assert forall k :: 0 <= k < n ==> ops[..n][k] == ops[k];
        } else {
          assert IsLastStore(ops[..n], u, i);
          assert forall k :: i <= k < n ==> ops[..n][k] == ops[k];
        }
      }
    }
  }

  /** The last step of a history and the position of the last store. */
  lemma LastStoreStep(ops: seq<Op>, u: string, i: nat)
    requires ops != [] && IsLastStore(ops, u, i) && i < |ops| - 1
    ensures IsLastStore(ops[..|ops| - 1], u, i) && !ops[|ops| - 1].Stores(u)
    ensures MarkedAfter(ops, u, i) <==> MarkedAfter(ops[..|ops| - 1], u, i) || ops[|ops| - 1].Marks(u)
  {
    var n := |ops| - 1;
    assert forall k :: 0 <= k < n ==> ops[..n][k] == ops[k];
    if MarkedAfter(ops[..n], u, i) {
      var k :| i < k < n && ops[..n][k].Marks(u);
      assert ops[k].Marks(u);
    }
    if ops[n].Marks(u) {
      assert MarkedAfter(ops, u, i);
    }
    if MarkedAfter(ops, u, i) && !ops[n].Marks(u) {
      var k :| i < k < |ops| && ops[k].Marks(u);
      assert ops[..n][k].Marks(u);
    }
  }

  /** After any history the meta file is the one of the last complete store, marked if a mark came later. */
  lemma {:induction false} MetaHistory(files: Files, ops: seq<Op>, u: string, i: nat)
    requires IsLastStore(ops, u, i)
    ensures var files' := Run(files, ops);
            && u in files'.config && u in files'.meta
            && files'.meta[u] == Meta(Some(CacheKey(ops[i].params)), ops[i].now, MarkedAfter(ops, u, i))
    decreases |ops|
  {
    var n := |ops| - 1;
    if i < n {
      LastStoreStep(ops, u, i);
      MetaHistory(files, ops[..n], u, i);
    }
  }

  lemma {:induction false} NoMeta(files: Files, ops: seq<Op>, u: string)
    requires u !in files.meta && forall k :: 0 <= k < |ops| ==> !ops[k].Stores(u)
    ensures u !in Run(files, ops).meta
    decreases |ops|
  {
    if ops != [] {
      NoMeta(files, ops[..|ops| - 1], u);
    }
  }

  lemma {:induction false} ConfigHistory(files: Files, ops: seq<Op>, u: string, j: nat)
    requires IsLastWrite(ops, u, j)
    ensures u in Run(files, ops).config && Run(files, ops).config[u] == ops[j].config
    decreases |ops|
  {
    var n := |ops| - 1;
    if j < n {
      assert IsLastWrite(ops[..n], u, j) by {
        assert forall k :: 0 <= k < n ==> ops[..n][k] == ops[k];
      }
      ConfigHistory(files, ops[..n], u, j);
    }
  }

  /** All stores for `u` and the wanted parameters have an unambiguous key. */
  ghost predicate Unambiguous(ops: seq<Op>, u: string, params: Params) {
    IsUnambiguous(params) && forall k :: 0 <= k < |ops| && ops[k].Stores(u) ==> IsUnambiguous(ops[k].params)
  }

  ghost predicate StoredFor(ops: seq<Op>, u: string, params: Params, i: nat) {
    IsLastStore(ops, u, i) && ops[i].params.Texts() == params.Texts()
  }

  /** A hit means that the last complete store was for the same parameters, and conversely. */
  lemma HitExactly(files: Files, ops: seq<Op>, u: string, params: Params)
    requires u !in files.meta && Unambiguous(ops, u, params)
    ensures Exists(Run(files, ops), u, params) <==> exists i :: StoredFor(ops, u, params, i)
  {
    var i := LastStore(ops, u);
    if i == |ops| {
      NoMeta(files, ops, u);
    } else {
      MetaHistory(files, ops, u, i);
      if CacheKey(ops[i].params) == CacheKey(params) {
        KeyInjective(ops[i].params, params);
        assert StoredFor(ops, u, params, i);
      }
      forall k | StoredFor(ops, u, params, k) ensures k == i && CacheKey(ops[i].params) == CacheKey(params) {
        assert k == i;
      }
    }
  }

  /** A profile is valid exactly when it exists, was not marked since it was stored, and is young enough. */
  lemma ValidExactly(files: Files, ops: seq<Op>, u: string, params: Params, now: int)
    requires u !in files.meta && Unambiguous(ops, u, params)
    ensures IsValid(Run(files, ops), u, params, now) <==>
            exists i: nat :: && StoredFor(ops, u, params, i) && !MarkedAfter(ops, u, i)
                        && 0 < ops[i].now && now - ops[i].now <= 90 * 24 * 3600
  {
    HitExactly(files, ops, u, params);
    forall i: nat | IsLastStore(ops, u, i)
      ensures u in Run(files, ops).meta
      ensures Run(files, ops).meta[u] == Meta(Some(CacheKey(ops[i].params)), ops[i].now, MarkedAfter(ops, u, i))
    {
      MetaHistory(files, ops, u, i);
    }
    hide CacheKey, Run, MarkedAfter, Unambiguous;
    if Exists(Run(files, ops), u, params) {
      var i: nat :| StoredFor(ops, u, params, i);
      assert IsLastStore(ops, u, i);
    }
  }

  /** Without a torn store since, a hit serves the text that was stored for these parameters. */
  lemma HitServesStored(files: Files, ops: seq<Op>, u: string, i: nat)
    requires IsLastStore(ops, u, i)
    requires forall k :: i < k < |ops| ==> !ops[k].Tears(u)
    ensures u in Run(files, ops).config && Run(files, ops).config[u] == ops[i].config
  {
    assert IsLastWrite(ops, u, i);
    ConfigHistory(files, ops, u, i);
  }

  lemma {:induction false} LastWrite(ops: seq<Op>, u: string, i: nat) returns (j: nat)
    requires i < |ops| && ops[i].Writes(u)
    ensures i <= j && IsLastWrite(ops, u, j)
    decreases |ops| - i
  {
    if k :| i < k < |ops| && ops[k].Writes(u) {
      j := LastWrite(ops, u, k);
    } else {
      j := i;
    }
  }

  /**
   * With torn stores the profile served is exactly the one stored when the last of them, if there is any,
   * happened to write the very same text.
   */
  lemma TornStores(files: Files, ops: seq<Op>, u: string, i: nat)
    requires IsLastStore(ops, u, i)
    ensures u in Run(files, ops).config
    ensures Run(files, ops).config[u] == ops[i].config <==>
            forall j :: i < j && IsLastWrite(ops, u, j) ==> ops[j].Tears(u) && ops[j].config == ops[i].config
  {
    var j := LastWrite(ops, u, i);
    ConfigHistory(files, ops, u, j);
  }

  /** A store that is torn after a complete one leaves the new profile under the old key. */
  lemma TornStoreMixesUp(files: Files, u: string, p: Params, q: Params, a: string, b: string, now: int)
    requires u !in files.meta && a != b && IsUnambiguous(p) && IsUnambiguous(q) && p.Texts() != q.Texts() && 0 < now
    ensures var ops := [StoreOp(u, p, a, now, Disk(true, true, true)), StoreOp(u, q, b, now, Disk(true, true, false))];
            && IsValid(Run(files, ops), u, p, now) && Run(files, ops).config[u] == b
            && !Exists(Run(files, ops), u, q)
  {
    var first := [StoreOp(u, p, a, now, Disk(true, true, true))];
    var ops := first + [StoreOp(u, q, b, now, Disk(true, true, false))];
    assert ops == [StoreOp(u, p, a, now, Disk(true, true, true)), StoreOp(u, q, b, now, Disk(true, true, false))];
    assert ops[..1] == first && first[..0] == [];
    if CacheKey(p) == CacheKey(q) {
      KeyInjective(p, q);
    }
  }
}
