/**
 * useUndoRedo (src/context/hooks/useUndoRedo.ts): undo takes the latest
 * action off `history` and puts it in front of `future`, redo does the
 * opposite, and each replays its action on the store, re-running the disk
 * sync for every record an update touched. There is no guard against a
 * second undo or redo while one is running.
 */
module UndoRedo {
  import opened Wrappers
  import opened Strings
  import opened Model
  import opened Store
  import opened History
  import opened AppState
  import Host
  import Toaster
  import Settings
  import SyncEngine
  import DiskSync

  // ---------------------------------------------------------------- the stacks

  /** The stacks after an undo: the latest action moves to the front of future. */
  function UndoStacks(history: seq<Action>, future: seq<Action>): (seq<Action>, seq<Action>)
    requires history != []
  {
    (history[..|history| - 1], [history[|history| - 1]] + future)
  }

  /** The stacks after a redo: the next action moves to the end of history. */
  function RedoStacks(history: seq<Action>, future: seq<Action>): (seq<Action>, seq<Action>)
    requires future != []
  {
    (history + [future[0]], future[1..])
  }

  /** A redo after an undo gives both stacks back. */
  lemma RedoUndoes(history: seq<Action>, future: seq<Action>)
    requires history != []
    ensures RedoStacks(UndoStacks(history, future).0, UndoStacks(history, future).1) == (history, future)
  {
    var (h, f) := UndoStacks(history, future);
    assert h + [f[0]] == history;
    assert f[1..] == future;
  }

  /** An undo after a redo gives both stacks back. */
  lemma UndoRedoes(history: seq<Action>, future: seq<Action>)
    requires future != []
    ensures UndoStacks(RedoStacks(history, future).0, RedoStacks(history, future).1) == (history, future)
  {
    var (h, f) := RedoStacks(history, future);
    assert h[..|h| - 1] == history;
    assert [h[|h| - 1]] + f == future;
  }

  // ---------------------------------------------------------------- the store, up to file locations

  /**
   * The two stores hold the same records up to where their files are: the
   * same keys, and records that differ at most in source, src, blob and
   * original src.
   */
  predicate SameEditable(a: map<string, ImageRecord>, b: map<string, ImageRecord>)
  {
    a.Keys == b.Keys && forall k :: k in a ==> Editable(a[k]) == Editable(b[k])
  }

  /** `update(id, p)` on each pair in turn, as the store applies them without any sync. */
  function Replayed(m: map<string, ImageRecord>, ps: seq<(string, Patch)>): map<string, ImageRecord>
    decreases |ps|
  {
    if ps == [] then m
    else
      var before := Replayed(m, ps[..|ps| - 1]);
      var (id, p) := ps[|ps| - 1];
      if id in before then before[id := Updated(before[id], p)] else before
  }

  function UndoPairs(items: seq<UndoItem>): (ps: seq<(string, Patch)>)
    ensures |ps| == |items| && forall i :: 0 <= i < |items| ==> ps[i] == (items[i].id, items[i].data)
  {
    seq(|items|, i requires 0 <= i < |items| => (items[i].id, items[i].data))
  }

  function ChangePairs(items: seq<ChangeItem>): (ps: seq<(string, Patch)>)
    ensures |ps| == |items| && forall i :: 0 <= i < |items| ==> ps[i] == (items[i].id, items[i].changes)
  {
    seq(|items|, i requires 0 <= i < |items| => (items[i].id, items[i].changes))
  }

  /** A patch applied to two records that agree up to location gives two records that still agree. */
  lemma EditableUpdated(r1: ImageRecord, r2: ImageRecord, p: Patch)
    requires Editable(r1) == Editable(r2)
    ensures Editable(Updated(r1, p)) == Editable(Updated(r2, p))
  {
    assert r1.id == r2.id && r1.title == r2.title && r1.prompt == r2.prompt;
  }

  lemma SameEditableUpdate(a: map<string, ImageRecord>, b: map<string, ImageRecord>, id: string, p: Patch)
    requires SameEditable(a, b) && id in a
    ensures SameEditable(a[id := Updated(a[id], p)], b[id := Updated(b[id], p)])
  {
    EditableUpdated(a[id], b[id], p);
  }

  lemma SameEditableTrans(a: map<string, ImageRecord>, b: map<string, ImageRecord>, c: map<string, ImageRecord>)
    requires SameEditable(a, b) && SameEditable(b, c)
    ensures SameEditable(a, c)
  {
  }

  lemma RelocatedSameEditable(before: map<string, ImageRecord>, after: map<string, ImageRecord>, id: string)
    requires DiskSync.Relocated(before, after, id)
    ensures SameEditable(after, before)
  {
  }

  /** One more pair in the replay. */
  lemma ReplayedSnoc(m: map<string, ImageRecord>, ps: seq<(string, Patch)>, i: nat)
    requires i < |ps|
    ensures Replayed(m, ps[..i + 1]) ==
      (var before := Replayed(m, ps[..i]);
       if ps[i].0 in before then before[ps[i].0 := Updated(before[ps[i].0], ps[i].1)] else before)
  {
    assert ps[..i + 1][..i] == ps[..i];
  }

  /** A replay of one pair is one update. */
  lemma ReplayedOne(m: map<string, ImageRecord>, id: string, p: Patch)
    ensures Replayed(m, [(id, p)]) == if id in m then m[id := Updated(m[id], p)] else m
  {
    assert [(id, p)][..0] == [];
  }

  /** The replay never adds or removes a record. */
  lemma {:induction false} ReplayedKeys(m: map<string, ImageRecord>, ps: seq<(string, Patch)>)
    ensures Replayed(m, ps).Keys == m.Keys
    decreases |ps|
  {
    if ps != [] {
      ReplayedKeys(m, ps[..|ps| - 1]);
    }
  }

  // ---------------------------------------------------------------- replaying on the store

  /**
   * What a disk sync needs besides the store and the host: the environment
   * tests, the settings and sources, the locks still held after the wait,
   * what fetching a record's data URL gives, and the clock.
   */
  datatype SyncEnv = SyncEnv(isElectron: bool, hasApi: bool, settings: Settings.GeneralSettings, sources: seq<LibrarySource>,
                             held: set<string>, fetched: map<string, Blob>, nowIso: string, now: int)

  function Fetched(env: SyncEnv, id: string): Option<Blob>
  {
    if id in env.fetched then Some(env.fetched[id]) else None
  }

  /**
   * `get`, `update(id, p)` and, for a record that existed, performDiskSync
   * against the record as it was (useUndoRedo.ts:45-53, 102-106, 123-127,
   * 136-140). Outside the desktop app there is no sync and the store holds
   * exactly the update; otherwise the sync may move the record's file.
   */
  method UpdateAndSync(engine: SyncEngine.Engine, db: Db, host: Host.MainProcess, env: SyncEnv, id: string, p: Patch)
    modifies engine`locks, engine`log, db`images, host`exif, host`files, host`dirs, host`allowedPaths, host`ignoredPaths, host`timers
    ensures id !in old(db.images) ==> db.images == old(db.images) && host.files == old(host.files)
    ensures id in old(db.images) ==> DiskSync.Relocated(old(db.images)[id := Updated(old(db.images)[id], p)], db.images, id)
    ensures !env.isElectron ==> db.images == (if id in old(db.images) then old(db.images)[id := Updated(old(db.images)[id], p)] else old(db.images))
    ensures !env.isElectron ==> host.files == old(host.files)
    ensures engine.locks <= old(engine.locks)
  {
    var before := db.Get(id);
    var _ := db.Update(id, p);
    if before.Some? && env.isElectron {
      var res, notices;
      ghost var run, mid;
      res, notices, run, mid := DiskSync.PerformDiskSync(engine, db, host, env.isElectron, env.hasApi, env.settings, env.sources, id,
                                              before, id in env.held, Fetched(env, id), env.nowIso, env.now);
    } else if id in db.images {
      DiskSync.RelocatedSame(db.images, id);
    }
  }

  /** The loops of the batch updates (useUndoRedo.ts:101-107, 135-141): each pair is updated and synced in turn. */
  method ReplayAll(engine: SyncEngine.Engine, db: Db, host: Host.MainProcess, env: SyncEnv, ps: seq<(string, Patch)>)
    modifies engine`locks, engine`log, db`images, host`exif, host`files, host`dirs, host`allowedPaths, host`ignoredPaths, host`timers
    ensures SameEditable(db.images, Replayed(old(db.images), ps))
    ensures !env.isElectron ==> db.images == Replayed(old(db.images), ps) && host.files == old(host.files)
    ensures engine.locks <= old(engine.locks)
  {
    var i := 0;
    while i < |ps|
      invariant 0 <= i <= |ps|
      invariant SameEditable(db.images, Replayed(old(db.images), ps[..i]))
      invariant !env.isElectron ==> db.images == Replayed(old(db.images), ps[..i]) && host.files == old(host.files)
      invariant engine.locks <= old(engine.locks)
    {
      ghost var before := db.images;
      ghost var spec := Replayed(old(db.images), ps[..i]);
      ReplayedSnoc(old(db.images), ps, i);
      var (id, p) := ps[i];
      UpdateAndSync(engine, db, host, env, id, p);
      if id in before {
        SameEditableUpdate(before, spec, id, p);
        RelocatedSameEditable(before[id := Updated(before[id], p)], db.images, id);
        SameEditableTrans(db.images, before[id := Updated(before[id], p)], Replayed(old(db.images), ps[..i + 1]));
      }
      i := i + 1;
    }
    assert ps[..|ps|] == ps;
  }

  // ---------------------------------------------------------------- restoring deleted files

  /** A deleted record whose file undo puts back from its backup (useUndoRedo.ts:58-64, 79-86). */
  predicate Restorable(env: SyncEnv, d: DeletedImage)
  {
    env.isElectron && env.hasApi && d.backupPath.Some? && d.backupPath.value != "" &&
    StartsWith(SrcOrEmpty(d.record), FILE_SCHEME) && DiskSync.FsPathOr(SrcOrEmpty(d.record)) != ""
  }

  /** restore-file for one deleted record, when it has a backup and a file URL that resolves. */
  method RestoreOne(host: Host.MainProcess, env: SyncEnv, d: DeletedImage)
    modifies host`files
    ensures !Restorable(env, d) ==> host.files == old(host.files)
    ensures Restorable(env, d) && !old(host.IsPathAllowed(Host.Dirname(DiskSync.FsPathOr(SrcOrEmpty(d.record))))) ==>
      host.files == old(host.files)
    ensures var target := DiskSync.FsPathOr(SrcOrEmpty(d.record));
      Restorable(env, d) && host.IsPathAllowed(Host.Dirname(target)) ==>
        if d.backupPath.value in old(host.files) && target !in host.faulty
        then host.files == Host.MainProcess.Restored(old(host.files), d.backupPath.value, target, d.backupBase)
        else host.files == old(host.files)
  {
    if Restorable(env, d) {
      var _ := host.RestoreFile(d.backupPath.value, DiskSync.FsPathOr(SrcOrEmpty(d.record)), d.backupBase);
    }
  }

  /** The restore loop of a batch delete's undo (useUndoRedo.ts:79-96). */
  method RestoreAll(host: Host.MainProcess, env: SyncEnv, ds: seq<DeletedImage>)
    modifies host`files
    ensures (forall i :: 0 <= i < |ds| ==> !Restorable(env, ds[i])) ==> host.files == old(host.files)
  {
    var i := 0;
    while i < |ds|
      invariant 0 <= i <= |ds|
      invariant (forall j :: 0 <= j < i ==> !Restorable(env, ds[j])) ==> host.files == old(host.files)
    {
      RestoreOne(host, env, ds[i]);
      i := i + 1;
    }
  }

  function Records(ds: seq<DeletedImage>): (rs: seq<ImageRecord>)
    ensures |rs| == |ds| && forall i :: 0 <= i < |ds| ==> rs[i] == ds[i].record
  {
    seq(|ds|, i requires 0 <= i < |ds| => ds[i].record)
  }

  function IdSet(ids: seq<string>): set<string>
  {
    set i | 0 <= i < |ids| :: ids[i]
  }

  // ---------------------------------------------------------------- undo and redo

  const UNDO_DONE: string := "Undo successful"
  const REDO_DONE: string := "Redo successful"

  /**
   * The undo handler (useUndoRedo.ts:32-111). With an empty history nothing
   * happens. Otherwise the stacks change first, then the action is undone:
   * an update writes back its undo payload and syncs, a delete restores the
   * file from its backup and adds the row again, a batch delete does so for
   * each record, and a batch update writes back each item's data in turn.
   * A row that cannot be added again rejects the handler before its notice.
   * The library's refresh that follows is not part of this model.
   */
  method Undo(stacks: Stacks, engine: SyncEngine.Engine, db: Db, host: Host.MainProcess, env: SyncEnv)
    returns (notice: Option<Notice>)
    modifies stacks, engine`locks, engine`log, db`images, host`exif, host`files, host`dirs, host`allowedPaths, host`ignoredPaths, host`timers
    ensures old(stacks.history) == [] ==>
      stacks.history == old(stacks.history) && stacks.future == old(stacks.future) && notice.None? &&
      db.images == old(db.images) && host.files == old(host.files)
    ensures old(stacks.history) != [] ==> (stacks.history, stacks.future) == UndoStacks(old(stacks.history), old(stacks.future))
    ensures engine.locks <= old(engine.locks)
    ensures old(stacks.history) != [] ==> UndoneInStore(old(stacks.history)[|old(stacks.history)| - 1], env, old(db.images), db.images)
    ensures old(stacks.history) != [] ==> (notice.Some? <==> UndoAdds(old(stacks.history)[|old(stacks.history)| - 1], old(db.images)))
    ensures notice.Some? ==> notice.value == Notice(Toaster.Info, UNDO_DONE)
  {
    if |stacks.history| == 0 {
      return None;
    }
    var action := stacks.history[|stacks.history| - 1];
    stacks.history, stacks.future := stacks.history[..|stacks.history| - 1], [action] + stacks.future;
    var ok := true;
    match action {
      case UpdateAction(_, id, _, undo) =>
        UpdateAndSync(engine, db, host, env, id, undo);
      case DeleteAction(_, _, d) =>
        RestoreOne(host, env, d);
        ok := db.Add(d.record);
      case BatchDelete(_, _, ds) =>
        if env.isElectron && env.hasApi {
          RestoreAll(host, env, ds);
        }
        var failures := db.BulkAdd(Records(ds));
        ok := failures == 0;
      case BatchUpdate(_, _, items) =>
        ReplayAll(engine, db, host, env, UndoPairs(items));
      case AddAction(_) =>
    }
    notice := if ok then Some(Notice(Toaster.Info, UNDO_DONE)) else None;
  }

  /** Whether undoing `a` gets through the store without a rejected add. */
  predicate UndoAdds(a: Action, before: map<string, ImageRecord>)
  {
    match a
    case DeleteAction(_, _, d) => d.record.id !in before
    case BatchDelete(_, _, ds) => BulkFailures(before, Records(ds)) == 0
    case _ => true
  }

  /** What undoing `a` does to the store. */
  predicate UndoneInStore(a: Action, env: SyncEnv, before: map<string, ImageRecord>, after: map<string, ImageRecord>)
  {
    match a
    case UpdateAction(_, id, _, undo) =>
      SameEditable(after, Replayed(before, [(id, undo)])) && (!env.isElectron ==> after == Replayed(before, [(id, undo)]))
    case DeleteAction(_, _, d) => after == if d.record.id in before then before else before[d.record.id := d.record]
    case BatchDelete(_, _, ds) => after == BulkAdded(before, Records(ds))
    case BatchUpdate(_, _, items) =>
      SameEditable(after, Replayed(before, UndoPairs(items))) && (!env.isElectron ==> after == Replayed(before, UndoPairs(items)))
    case AddAction(_) => after == before
  }

  /** What redoing `a` does to the store. */
  predicate RedoneInStore(a: Action, env: SyncEnv, before: map<string, ImageRecord>, after: map<string, ImageRecord>)
  {
    match a
    case UpdateAction(_, id, updates, _) =>
      SameEditable(after, Replayed(before, [(id, updates)])) && (!env.isElectron ==> after == Replayed(before, [(id, updates)]))
    case DeleteAction(_, id, _) => after == before - {id}
    case BatchDelete(_, ids, _) => after == before - IdSet(ids)
    case BatchUpdate(_, items, _) =>
      SameEditable(after, Replayed(before, ChangePairs(items))) && (!env.isElectron ==> after == Replayed(before, ChangePairs(items)))
    case AddAction(_) => after == before
  }

  /**
   * The redo handler (useUndoRedo.ts:113-145). With an empty future nothing
   * happens. Otherwise the stacks change first, then the action is done
   * again: an update writes its changes and syncs, a delete and a batch
   * delete remove their rows, and a batch update writes each item's changes
   * in turn. The library's refresh that follows is not part of this model.
   */
  method Redo(stacks: Stacks, engine: SyncEngine.Engine, db: Db, host: Host.MainProcess, env: SyncEnv)
    returns (notice: Option<Notice>)
    modifies stacks, engine`locks, engine`log, db`images, host`exif, host`files, host`dirs, host`allowedPaths, host`ignoredPaths, host`timers
    ensures old(stacks.future) == [] ==>
      stacks.history == old(stacks.history) && stacks.future == old(stacks.future) && notice.None? &&
      db.images == old(db.images) && host.files == old(host.files)
    ensures old(stacks.future) != [] ==>
      (stacks.history, stacks.future) == RedoStacks(old(stacks.history), old(stacks.future)) &&
      RedoneInStore(old(stacks.future)[0], env, old(db.images), db.images) &&
      notice == Some(Notice(Toaster.Info, REDO_DONE))
    ensures engine.locks <= old(engine.locks)
  {
    if |stacks.future| == 0 {
      return None;
    }
    var action := stacks.future[0];
    stacks.history, stacks.future := stacks.history + [action], stacks.future[1..];
    match action {
      case UpdateAction(_, id, updates, _) =>
        UpdateAndSync(engine, db, host, env, id, updates);
      case DeleteAction(_, id, _) =>
        db.Delete(id);
      case BatchDelete(_, ids, _) =>
        db.BulkDelete(ids);
      case BatchUpdate(_, items, _) =>
        ReplayAll(engine, db, host, env, ChangePairs(items));
      case AddAction(_) =>
    }
    notice := Some(Notice(Toaster.Info, REDO_DONE));
  }
}
