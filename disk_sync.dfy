/**
 * useDiskSync (src/context/hooks/useDiskSync.ts): after an edit, bring the
 * image's file on disk in line with its record. performDiskSync runs a fixed
 * sequence of phases under the sync engine's per-image lock:
 *   reassignment of an internal file that lies in a linked folder,
 *   phase -1 (a local file moves out to a linked vault),
 *   phase 0 (a linked file moves into the local vault),
 *   phase 1 (an in-memory image is saved to disk),
 *   phase 2 (the file path is resolved),
 *   phase 3 (the file is renamed after its title) and
 *   phase 4 (metadata and sidecars are written).
 * The electron API is the host model; `addToast` calls are returned as notices.
 */
module DiskSync {
  import opened Wrappers
  import opened Strings
  import opened Model
  import opened Store
  import Host
  import Utils
  import SyncEngine
  import Toaster
  import opened AppState
  import Settings

  // ---------------------------------------------------------------- paths

  /** `toUI`: the record with `src || ''`. */
  function ToUI(r: ImageRecord): ImageRecord
  {
    r.(src := Some(SrcOrEmpty(r)))
  }

  /** `p.replace(/\\/g, '/').toLowerCase()` with a '/' added unless it ends in one. */
  function DirPrefix(p: string): (r: string)
    ensures EndsWith(r, "/")
  {
    var n := SyncEngine.NormPath(p);
    if EndsWith(n, "/") then n else n + "/"
  }

  /** `pRes.success ? pRes.path : ''` for `getFsPath(url)`. */
  function FsPathOr(url: string): string
  {
    var r := Host.GetFsPath(url);
    if r.Success? then r.value else ""
  }

  /** The normalised path starts with the normalised folder and a '/'. */
  predicate InFolder(path: string, folder: string)
  {
    StartsWith(SyncEngine.NormPath(path), DirPrefix(folder))
  }

  /** `path.substring(0, path.lastIndexOf('.'))`: empty when there is no '.'. */
  function BeforeLastDot(p: string): string
  {
    Before(p, LastIndexOf(p, '.'))
  }

  // ---------------------------------------------------------------- reassignment

  /** The test of `sources.find` in the reassignment (useDiskSync.ts:296-301): a truthy path that holds the file. */
  predicate LinkedBy(s: LibrarySource, path: string)
  {
    s.path.Some? && s.path.value != "" && InFolder(path, s.path.value)
  }

  /** The id of the first source whose folder holds `path`. */
  function FirstLinked(sources: seq<LibrarySource>, path: string): (r: Option<string>)
    ensures r.Some? ==> exists s :: s in sources && LinkedBy(s, path) && s.id == r.value
    ensures r.None? ==> forall s :: s in sources ==> !LinkedBy(s, path)
  {
    if sources == [] then None
    else if LinkedBy(sources[0], path) then
      assert sources[0] in sources;
      Some(sources[0].id)
    else
      var r := FirstLinked(sources[1..], path);
      assert forall s :: s in sources[1..] ==> s in sources;
      assert forall s :: s in sources ==> s == sources[0] || s in sources[1..];
      r
  }

  /**
   * The source an internal record is reassigned to (useDiskSync.ts:285-306):
   * the caller did not change its source, its src is a file URL, and the file
   * lies outside the local vault and inside a linked folder.
   */
  function RelinkTarget(original: ImageRecord, r: ImageRecord, sources: seq<LibrarySource>, vault: string): Option<string>
  {
    var srcUrl := SrcOrEmpty(r);
    var current := FsPathOr(srcUrl);
    if original.sourceId == r.sourceId && r.sourceId == INTERNAL && StartsWith(srcUrl, FILE_SCHEME) && !InFolder(current, vault)
    then FirstLinked(sources, current)
    else None
  }

  /** The record after the reassignment. */
  function Relinked(original: ImageRecord, r: ImageRecord, sources: seq<LibrarySource>, vault: string): ImageRecord
  {
    var t := RelinkTarget(original, r, sources, vault);
    if t.Some? then r.(sourceId := t.value) else r
  }

  // ---------------------------------------------------------------- phase tests

  /** `originalImage?.src ?? dbItem.src` */
  function PriorSrc(original: ImageRecord, r: ImageRecord): Option<string>
  {
    if original.src.Some? then original.src else r.src
  }

  /** needsCopyToLocal (useDiskSync.ts:308-316): the caller moved a linked file URL to 'internal'. */
  predicate NeedsCopyToLocal(original: ImageRecord, r: ImageRecord)
  {
    original.sourceId != r.sourceId && original.sourceId != INTERNAL && r.sourceId == INTERNAL &&
    StartsWith(SrcOrEmpty(r), FILE_SCHEME)
  }

  /** needsRemoveFromLocal (useDiskSync.ts:308-317): an internal file URL moved to another source. */
  predicate NeedsRemoveFromLocal(original: ImageRecord, r: ImageRecord)
  {
    original.sourceId != r.sourceId && original.sourceId == INTERNAL && r.sourceId != INTERNAL &&
    IsFileUrl(PriorSrc(original, r))
  }

  /** Phase -1 runs (useDiskSync.ts:320-325): the prior file lies inside the local vault. */
  predicate MovesOut(original: ImageRecord, r: ImageRecord, vault: string)
  {
    NeedsRemoveFromLocal(original, r) && InFolder(FsPathOr(PriorSrc(original, r).value), vault)
  }

  /** `sources.find(s => s.id === sourceId)?.path` (useDiskSync.ts:327-328) */
  function TargetVault(sources: seq<LibrarySource>, sourceId: string): (p: Option<string>)
    ensures p.Some? ==> exists s :: s in sources && s.id == sourceId && s.path == p
    ensures (forall i :: 0 <= i < |sources| ==> sources[i].id != sourceId) ==> p.None?
    ensures forall i :: 0 <= i < |sources| && sources[i].id == sourceId && (forall j :: 0 <= j < i ==> sources[j].id != sourceId) ==>
      p == sources[i].path
  {
    if sources == [] then None
    else if sources[0].id == sourceId then
      assert sources[0] in sources;
      sources[0].path
    else
      var p := TargetVault(sources[1..], sourceId);
      assert forall s :: s in sources[1..] ==> s in sources;
      assert forall i :: 1 <= i < |sources| ==> sources[1..][i - 1] == sources[i];
      p
  }

  /** handleRoundTrip's test before the existence check (useDiskSync.ts:28-42): originalSrc resolves inside the target folder. */
  predicate ReturnsHome(originalSrc: Option<string>, targetVault: string)
  {
    Truthy(originalSrc) && FsPathOr(originalSrc.value) != "" && InFolder(FsPathOr(originalSrc.value), targetVault)
  }

  /** `isActuallyMemory` (useDiskSync.ts:357): a data or blob URL, or a blob. */
  predicate InMemory(r: ImageRecord)
  {
    (r.src.Some? && (StartsWith(r.src.value, "data:") || StartsWith(r.src.value, "blob:"))) || r.blob.Some?
  }

  /** The file name of a copy (useDiskSync.ts:71-72, 120-121): the lower-cased sanitised title and the extension, 'png' by default. */
  function CopyName(path: string, title: string): string
  {
    var e := SyncEngine.LastPiece(path, '.');
    ToLower(Utils.SanitizeFilename(title)) + "." + (if e != "" then e else "png")
  }

  /** The metadata a copy's sidecars are written from. */
  function CopyMetadata(r: ImageRecord): Patch
  {
    map[Id := Str(r.id), Title := Str(r.title), Prompt := Str(r.prompt)]
  }

  /** `originalImage?.title || dbItem.title` */
  function OldTitle(original: ImageRecord, r: ImageRecord): string
  {
    if original.title != "" then original.title else r.title
  }

  /** `${dir}${sep}${sanitizeFilename(newTitle)}${ext}` (useDiskSync.ts:203-207). */
  function RenameTargetPath(fsPath: string, newTitle: string): string
  {
    var cut := if LastIndexOf(fsPath, '/') >= LastIndexOf(fsPath, '\\') then LastIndexOf(fsPath, '/') else LastIndexOf(fsPath, '\\');
    var sep := if Contains(fsPath, "\\") then "\\" else "/";
    Before(fsPath, cut) + sep + Utils.SanitizeFilename(newTitle) + From(fsPath, LastIndexOf(fsPath, '.'))
  }

  /** handleFileRename calls renameFile (useDiskSync.ts:201-211). */
  predicate RenameAttempted(oldTitle: string, newTitle: string, fsPath: string, isExternal: bool, renameLinked: bool)
  {
    (!isExternal || renameLinked) && newTitle != "" && oldTitle != "" && newTitle != oldTitle &&
    ToLower(fsPath) != ToLower(RenameTargetPath(fsPath, newTitle))
  }

  // ---------------------------------------------------------------- store updates

  /** Disk synchronisation only ever writes these properties. */
  predicate LocationOnly(p: Patch)
  {
    p.Keys <= {SourceId, Src, BlobData, OriginalSrc}
  }

  lemma LocationOnlyKeepsEditable(r: ImageRecord, p: Patch)
    requires LocationOnly(p)
    ensures Editable(Updated(r, p)) == Editable(r)
  {
  }

  lemma UpdatedSourceId(r: ImageRecord, s: string)
    ensures Updated(r, map[SourceId := Str(s)]) == r.(sourceId := s)
  {
  }

  lemma UpdatedSrc(r: ImageRecord, s: string)
    ensures Updated(r, map[Src := Str(s)]) == r.(src := Some(s))
  {
  }

  lemma UpdatedSrcNoOrigin(r: ImageRecord, s: string)
    ensures Updated(r, map[Src := Str(s), OriginalSrc := Undefined]) == r.(src := Some(s), originalSrc := None)
  {
  }

  lemma UpdatedSrcNoBlob(r: ImageRecord, s: string)
    ensures Updated(r, map[Src := Str(s), BlobData := Undefined]) == r.(src := Some(s), blob := None)
  {
  }

  lemma UpdatedCopiedIn(r: ImageRecord, s: string, e: string)
    ensures Updated(r, map[Src := Str(s), BlobData := Undefined, SourceId := Str(INTERNAL), OriginalSrc := Str(e)]) ==
      r.(src := Some(s), blob := None, sourceId := INTERNAL, originalSrc := Some(e))
  {
  }

  /** The record's location changed and nothing else in the store did. */
  predicate Relocated(before: map<string, ImageRecord>, after: map<string, ImageRecord>, id: string)
  {
    id in before && id in after && after == before[id := after[id]] && Editable(after[id]) == Editable(before[id])
  }

  lemma RelocatedTrans(a: map<string, ImageRecord>, b: map<string, ImageRecord>, c: map<string, ImageRecord>, id: string)
    requires Relocated(a, b, id) && Relocated(b, c, id)
    ensures Relocated(a, c, id)
  {
  }

  lemma RelocatedSame(a: map<string, ImageRecord>, id: string)
    requires id in a
    ensures Relocated(a, a, id)
  {
  }

  // ---------------------------------------------------------------- disk effects

  /** A path no sidecar write and no temporary file of one can take: not sidecar-named and not ending in a digit. */
  predicate ImageNamed(p: string)
  {
    p != "" && !Host.SidecarNamed(p) && !IsDigit(p[|p| - 1])
  }

  /** The copy at `target` survives its own sidecar write and the trashing of `p` with `base`'s sidecars. */
  lemma CopySurvives(files: map<string, Host.Content>, target: string, c: Host.Content, metadata: Option<Patch>,
                     after: map<string, Host.Content>, p: string, base: string)
    requires !Host.SidecarNamed(target) && target != p
    requires Host.OnlyRemoved(Host.SidecarsWritten(files[target := c], target, metadata), after, Host.CleanupSet(p, base))
    ensures target in after && after[target] == c
  {
    Host.SidecarsKeepImage(files[target := c], target, metadata);
    EndsWithAppend(Host.StripExt(p), ".json");
    EndsWithAppend(Host.StripExt(p), ".txt");
    EndsWithAppend(base, ".json");
    EndsWithAppend(base, ".txt");
  }

  /** The renamed image survives the trashing of the old path and the old sidecars. */
  lemma RenameSurvives(files: map<string, Host.Content>, p: string, target: string, after: map<string, Host.Content>, base: string)
    requires p in files && !Host.SidecarNamed(p) && !Host.SidecarNamed(target) && target != p
    requires Host.OnlyRemoved(Host.Renamed(files, p, target), after, Host.CleanupSet(p, base))
    ensures target in after && after[target] == files[p]
  {
    EndsWithAppend(Host.StripExt(target), ".json");
    EndsWithAppend(Host.StripExt(target), ".txt");
    EndsWithAppend(Host.StripExt(p), ".json");
    EndsWithAppend(Host.StripExt(p), ".txt");
    assert forall e :: e in Host.SIDECAR_EXTS ==> p != Host.StripExt(target) + e && p != Host.StripExt(p) + e;
    Host.RenamedMovesImage(files, p, target);
    Host.NotCleanedUp(target, p, base);
  }

  /** No sidecar write of writeSidecar touches an image-named path. */
  lemma ImageNamedNotWritten(q: string, b: string, now: int)
    requires ImageNamed(q)
    ensures q !in SyncEngine.SidecarWrites(b, now)
  {
    EndsWithAppend(b, ".json");
    EndsWithAppend(b, ".txt");
    var n := if now < 0 then -now else now;
    var digits := NatToString(n);
    assert IsDigit(digits[|digits| - 1]);
    var t1 := Host.MainProcess.TempPath(b + ".json", now);
    var t2 := Host.MainProcess.TempPath(b + ".txt", now);
    assert t1[|t1| - 1] == digits[|digits| - 1];
    assert t2[|t2| - 1] == digits[|digits| - 1];
  }

  /**
   * Trash `p`, then `base.json` and `base.txt` (useDiskSync.ts:48-52, 92-96,
   * 130-135): where their folders are allowed they are gone, and nothing else
   * is touched.
   */
  method TrashWithSidecars(host: Host.MainProcess, p: string, base: string)
    modifies host`files, host`dirs
    ensures Host.OnlyRemoved(old(host.files), host.files, Host.CleanupSet(p, base))
    ensures host.allowedPaths == old(host.allowedPaths)
    ensures host.IsPathAllowed(Host.Dirname(p)) ==>
      p !in host.files && Host.StripExt(p) + ".json" !in host.files && Host.StripExt(p) + ".txt" !in host.files
    ensures host.IsPathAllowed(Host.Dirname(base + ".json")) ==> base + ".json" !in host.files
    ensures host.IsPathAllowed(Host.Dirname(base + ".txt")) ==> base + ".txt" !in host.files
  {
    Host.StripSidecar(base, ".json");
    Host.StripSidecar(base, ".txt");
    var _ := host.TrashFile(p);
    var _ := host.TrashFile(base + ".json");
    var _ := host.TrashFile(base + ".txt");
  }

  /**
   * After a copy to `target`, trash the source `p` with its sidecars: the copy
   * keeps the source's bytes unless its own name is a sidecar's.
   */
  method TrashCopySource(host: Host.MainProcess, p: string, base: string, ghost target: string,
                         ghost files: map<string, Host.Content>, ghost metadata: Option<Patch>)
    requires p in files && target != p
    requires host.files == Host.SidecarsWritten(files[target := files[p]], target, metadata)
    modifies host`files, host`dirs
    ensures Host.OnlyRemoved(old(host.files), host.files, Host.CleanupSet(p, base))
    ensures host.allowedPaths == old(host.allowedPaths)
    ensures host.IsPathAllowed(Host.Dirname(p)) ==>
      p !in host.files && Host.StripExt(p) + ".json" !in host.files && Host.StripExt(p) + ".txt" !in host.files
    ensures !Host.SidecarNamed(target) ==> target in host.files && host.files[target] == files[p]
  {
    TrashWithSidecars(host, p, base);
    if !Host.SidecarNamed(target) {
      CopySurvives(files, target, files[p], metadata, host.files, p, base);
    }
  }

  // ---------------------------------------------------------------- results

  /**
   * How phase -1 ended: the file went back to its original place, it was
   * copied to the source's folder (or the copy failed), or the source had
   * no folder.
   */
  datatype Move = RoundTrip | CopyOut(ok: bool) | NoTargetPath

  /** What performDiskSync returns: the stored record as is, the record for the UI, or a stand-in. */
  datatype SyncReturn = Stored(stored: Option<ImageRecord>) | Shown(shown: ImageRecord) | Placeholder(id: string, title: string)

  const COPY_OUT_FAILED: string := "Failed to copy to external vault"
  const SAVE_FAILED: string := "SyncEngine save failed"

  // ---------------------------------------------------------------- helpers of the hook

  /**
   * The reassignment (useDiskSync.ts:295-306): an unchanged internal record
   * whose file lies in a linked folder moves to that source, in the store and
   * in the local copy.
   */
  method RelinkPhase(db: Db, id: string, dbItem: ImageRecord, original: ImageRecord, sources: seq<LibrarySource>, vault: string)
    returns (item: ImageRecord, linked: Option<string>)
    requires id in db.images && db.images[id] == dbItem
    modifies db`images
    ensures linked == RelinkTarget(original, dbItem, sources, vault)
    ensures item == Relinked(original, dbItem, sources, vault)
    ensures db.images == old(db.images)[id := item]
    ensures Relocated(old(db.images), db.images, id)
  {
    item := dbItem;
    var srcUrl := SrcOrEmpty(dbItem);
    var currentFsPath := FsPathOr(srcUrl);
    linked := None;
    if original.sourceId == dbItem.sourceId && dbItem.sourceId == INTERNAL && StartsWith(srcUrl, FILE_SCHEME) &&
       !InFolder(currentFsPath, vault) {
      linked := FirstLinked(sources, currentFsPath);
      if linked.Some? {
        var _ := db.Update(id, map[SourceId := Str(linked.value)]);
        UpdatedSourceId(dbItem, linked.value);
        LocationOnlyKeepsEditable(dbItem, map[SourceId := Str(linked.value)]);
        item := dbItem.(sourceId := linked.value);
      }
    }
  }

  /**
   * handleRoundTrip (useDiskSync.ts:21-61): a record that came from the
   * target folder and whose original file is still there points at it again;
   * the local copy and its sidecars go to the trash. Nothing is copied.
   */
  method HandleRoundTrip(db: Db, host: Host.MainProcess, id: string, dbItem: ImageRecord, localPath: string, targetVault: string)
    returns (handled: bool, newItem: ImageRecord)
    requires id in db.images && db.images[id] == dbItem
    modifies db`images, host`files, host`dirs
    ensures handled <==> ReturnsHome(dbItem.originalSrc, targetVault) && old(host.Exists(FsPathOr(dbItem.originalSrc.value)))
    ensures handled ==>
      newItem == dbItem.(src := dbItem.originalSrc, originalSrc := None) && db.images == old(db.images)[id := newItem]
    ensures handled && old(host.IsPathAllowed(Host.Dirname(localPath))) ==>
      localPath !in host.files && Host.StripExt(localPath) + ".json" !in host.files && Host.StripExt(localPath) + ".txt" !in host.files
    ensures handled ==> Host.OnlyRemoved(old(host.files), host.files, Host.TrashSet(localPath))
    ensures !handled ==> newItem == dbItem && db.images == old(db.images) && host.files == old(host.files) && host.dirs == old(host.dirs)
    ensures Relocated(old(db.images), db.images, id)
  {
    newItem := dbItem;
    handled := false;
    if !Truthy(dbItem.originalSrc) {
      return;
    }
    var origSrc := dbItem.originalSrc.value;
    var origPath := FsPathOr(origSrc);
    if origPath == "" {
      return;
    }
    if InFolder(origPath, targetVault) && host.Exists(origPath) {
      var _ := db.Update(id, map[Src := Str(origSrc), OriginalSrc := Undefined]);
      UpdatedSrcNoOrigin(dbItem, origSrc);
      LocationOnlyKeepsEditable(dbItem, map[Src := Str(origSrc), OriginalSrc := Undefined]);
      newItem := dbItem.(src := Some(origSrc), originalSrc := None);
      TrashWithSidecars(host, localPath, Host.StripExt(localPath));
      Host.CleanupOwnStem(localPath);
      handled := true;
    }
  }

  /**
   * Phase -1 once a target folder is known (useDiskSync.ts:330-337): a round
   * trip home when the original file is still there, a copy out otherwise.
   */
  method MoveToTargetVault(db: Db, host: Host.MainProcess, id: string, dbItem: ImageRecord, from: string,
                           targetVault: string, now: int)
    returns (item: ImageRecord, notices: seq<Notice>, step: Move, ghost target: string)
    requires id in db.images && db.images[id] == dbItem
    modifies db`images, host`files, host`dirs, host`allowedPaths, host`ignoredPaths, host`timers
    ensures Relocated(old(db.images), db.images, id)
    ensures step != NoTargetPath
    ensures step == RoundTrip <==>
      ReturnsHome(dbItem.originalSrc, targetVault) && old(host.Exists(FsPathOr(dbItem.originalSrc.value)))
    ensures step == RoundTrip ==>
      item == dbItem.(src := dbItem.originalSrc, originalSrc := None) && db.images[id] == item && notices == [] &&
      Host.OnlyRemoved(old(host.files), host.files, Host.TrashSet(from))
    ensures step == CopyOut(false) ==>
      item == dbItem && db.images[id] == dbItem.(sourceId := INTERNAL) && notices == [Notice(Toaster.Error, COPY_OUT_FAILED)]
    ensures step == CopyOut(true) ==>
      notices == [] && !old(host.Exists(target)) &&
      item == dbItem.(src := Some(SyncEngine.FileUrl(target)), originalSrc := None) && db.images[id] == item &&
      from in old(host.files) &&
      Host.OnlyRemoved(Host.SidecarsWritten(old(host.files)[target := old(host.files)[from]], target, Some(CopyMetadata(dbItem))),
                  host.files, Host.TrashSet(from))
    ensures step == CopyOut(true) && !Host.SidecarNamed(target) ==> target in host.files && host.files[target] == old(host.files)[from]
  {
    notices, target := [], "";
    var handled, newItem := HandleRoundTrip(db, host, id, dbItem, from, targetVault);
    if handled {
      item, step := newItem, RoundTrip;
    } else {
      var copied;
      copied, notices, target := CopyToExternalVault(db, host, id, dbItem, from, targetVault, now);
      if copied.Some? {
        item, step := copied.value, CopyOut(true);
      } else {
        item, step := dbItem, CopyOut(false);
      }
    }
  }

  /**
   * copyToExternalVault (useDiskSync.ts:63-106): the local file is copied into
   * the target folder and the record points at the copy; a failed copy puts
   * the record back to 'internal' and reports it.
   */
  method CopyToExternalVault(db: Db, host: Host.MainProcess, id: string, dbItem: ImageRecord, localPath: string,
                             targetVault: string, now: int)
    returns (newItem: Option<ImageRecord>, notices: seq<Notice>, ghost target: string)
    requires id in db.images && db.images[id] == dbItem
    modifies db`images, host`files, host`dirs, host`allowedPaths, host`ignoredPaths, host`timers
    ensures newItem.None? ==>
      db.images == old(db.images)[id := dbItem.(sourceId := INTERNAL)] && notices == [Notice(Toaster.Error, COPY_OUT_FAILED)]
    ensures newItem.Some? ==>
      notices == [] && old(localPath in host.files) && !old(host.Exists(target)) && target != "" &&
      newItem.value == dbItem.(src := Some(SyncEngine.FileUrl(target)), originalSrc := None) &&
      db.images == old(db.images)[id := newItem.value]
    ensures newItem.Some? && old(host.IsPathAllowed(Host.Dirname(localPath))) ==>
      localPath !in host.files && Host.StripExt(localPath) + ".json" !in host.files && Host.StripExt(localPath) + ".txt" !in host.files
    ensures newItem.Some? ==>
      old(localPath in host.files) &&
      Host.OnlyRemoved(Host.SidecarsWritten(old(host.files)[target := old(host.files)[localPath]], target, Some(CopyMetadata(dbItem))),
                  host.files, Host.TrashSet(localPath))
    ensures newItem.Some? && !Host.SidecarNamed(target) ==> target in host.files && host.files[target] == old(host.files)[localPath]
    ensures Relocated(old(db.images), db.images, id)
  {
    var fileName := CopyName(localPath, dbItem.title);
    var result := host.CopyToVault(localPath, targetVault, "", fileName, Some(CopyMetadata(dbItem)), now);
    target := "";
    if result.Success? && result.value != "" {
      target := result.value;
      var newSrc := SyncEngine.FileUrl(result.value);
      var _ := db.Update(id, map[Src := Str(newSrc), OriginalSrc := Undefined]);
      UpdatedSrcNoOrigin(dbItem, newSrc);
      LocationOnlyKeepsEditable(dbItem, map[Src := Str(newSrc), OriginalSrc := Undefined]);
      newItem := Some(dbItem.(src := Some(newSrc), originalSrc := None));
      TrashCopySource(host, localPath, Host.StripExt(localPath), target, old(host.files), Some(CopyMetadata(dbItem)));
      Host.CleanupOwnStem(localPath);
      notices := [];
    } else {
      var _ := db.Update(id, map[SourceId := Str(INTERNAL)]);
      UpdatedSourceId(dbItem, INTERNAL);
      LocationOnlyKeepsEditable(dbItem, map[SourceId := Str(INTERNAL)]);
      newItem := None;
      notices := [Notice(Toaster.Error, COPY_OUT_FAILED)];
    }
  }

  /**
   * copyToLocalVault (useDiskSync.ts:108-154): the linked file is copied into
   * the local vault, the original and its sidecars go to the trash, and the
   * record becomes internal with the old src kept as originalSrc. A failed
   * copy restores the caller's source; a src that does not resolve changes
   * nothing.
   */
  method CopyToLocalVault(db: Db, host: Host.MainProcess, id: string, dbItem: ImageRecord, vault: string,
                          safeOriginalSourceId: string, now: int)
    returns (newItem: Option<ImageRecord>, ghost target: string)
    requires id in db.images && db.images[id] == dbItem
    modifies db`images, host`files, host`dirs, host`allowedPaths, host`ignoredPaths, host`timers
    ensures FsPathOr(SrcOrEmpty(dbItem)) == "" ==>
      newItem.None? && db.images == old(db.images) && host.files == old(host.files)
    ensures newItem.None? && FsPathOr(SrcOrEmpty(dbItem)) != "" ==>
      db.images == old(db.images)[id := dbItem.(sourceId := safeOriginalSourceId)]
    ensures newItem.Some? ==>
      old(FsPathOr(SrcOrEmpty(dbItem)) in host.files) && !old(host.Exists(target)) && target != "" &&
      newItem.value == dbItem.(src := Some(SyncEngine.FileUrl(target)), blob := None, sourceId := INTERNAL, originalSrc := dbItem.src) &&
      db.images == old(db.images)[id := newItem.value]
    ensures newItem.Some? && old(host.IsPathAllowed(Host.Dirname(FsPathOr(SrcOrEmpty(dbItem))))) ==>
      FsPathOr(SrcOrEmpty(dbItem)) !in host.files
    ensures var p := FsPathOr(SrcOrEmpty(dbItem));
      newItem.Some? ==>
        p in old(host.files) &&
        Host.OnlyRemoved(Host.SidecarsWritten(old(host.files)[target := old(host.files)[p]], target, Some(CopyMetadata(dbItem))),
                    host.files, Host.CleanupSet(p, BeforeLastDot(p)))
    ensures var p := FsPathOr(SrcOrEmpty(dbItem));
      newItem.Some? && !Host.SidecarNamed(target) ==> target in host.files && host.files[target] == old(host.files)[p]
    ensures Relocated(old(db.images), db.images, id)
  {
    target := "";
    newItem := None;
    var srcPath := FsPathOr(SrcOrEmpty(dbItem));
    if srcPath == "" {
      return;
    }
    assert dbItem.src.Some?;
    var externalSrc := dbItem.src.value;
    var fileName := CopyName(srcPath, dbItem.title);
    var result := host.CopyToVault(srcPath, vault, "", fileName, Some(CopyMetadata(dbItem)), now);
    if result.Success? && result.value != "" {
      target := result.value;
      var newSrc := SyncEngine.FileUrl(result.value);
      TrashCopySource(host, srcPath, BeforeLastDot(srcPath), target, old(host.files), Some(CopyMetadata(dbItem)));
      var changes := map[Src := Str(newSrc), BlobData := Undefined, SourceId := Str(INTERNAL), OriginalSrc := Str(externalSrc)];
      var _ := db.Update(id, changes);
      UpdatedCopiedIn(dbItem, newSrc, externalSrc);
      LocationOnlyKeepsEditable(dbItem, changes);
      newItem := Some(dbItem.(src := Some(newSrc), blob := None, sourceId := INTERNAL, originalSrc := Some(externalSrc)));
    } else {
      var _ := db.Update(id, map[SourceId := Str(safeOriginalSourceId)]);
      UpdatedSourceId(dbItem, safeOriginalSourceId);
      LocationOnlyKeepsEditable(dbItem, map[SourceId := Str(safeOriginalSourceId)]);
    }
  }

  /**
   * Whether phase -1 ran for the relinked record `r`, how it ended, and the
   * stored record `cur` it left.
   */
  ghost predicate MoveCur(step: Option<Move>, o: ImageRecord, r: ImageRecord, cur: ImageRecord, sources: seq<LibrarySource>, vault: string)
  {
    (step.None? <==> !MovesOut(o, r, vault)) &&
    (step.None? ==> cur == r) &&
    (step.Some? ==> r.sourceId != INTERNAL && !NeedsCopyToLocal(o, r)) &&
    (step == Some(NoTargetPath) <==> MovesOut(o, r, vault) && !Truthy(TargetVault(sources, r.sourceId))) &&
    (step == Some(NoTargetPath) || step == Some(CopyOut(false)) ==> cur == r.(sourceId := INTERNAL)) &&
    (step == Some(RoundTrip) ==> cur == r.(src := r.originalSrc, originalSrc := None)) &&
    (step == Some(CopyOut(true)) ==> IsFileUrl(cur.src) && cur == r.(src := cur.src, originalSrc := None))
  }

  /**
   * The hook's local copy `item` after phase -1: a record moved out matches
   * the store, one whose move failed keeps its external source; and the
   * notices it raised.
   */
  predicate MoveLocal(step: Option<Move>, r: ImageRecord, item: ImageRecord, cur: ImageRecord, notices: seq<Notice>)
  {
    (step.None? || step == Some(NoTargetPath) || step == Some(CopyOut(false)) ==> item == r) &&
    (step == Some(RoundTrip) || step == Some(CopyOut(true)) ==> item == cur) &&
    item.sourceId == r.sourceId &&
    notices == if step == Some(CopyOut(false)) then [Notice(Toaster.Error, COPY_OUT_FAILED)] else []
  }

  /** After phase -1 the local copy is the stored record with the source the reassignment left. */
  lemma MovedLocal(step: Option<Move>, r: ImageRecord, item: ImageRecord, cur: ImageRecord)
    requires step.None? ==> cur == r
    requires step == Some(NoTargetPath) || step == Some(CopyOut(false)) ==> cur == r.(sourceId := INTERNAL)
    requires step == Some(RoundTrip) ==> cur == r.(src := r.originalSrc, originalSrc := None)
    requires step == Some(CopyOut(true)) ==> cur == r.(src := cur.src, originalSrc := None)
    requires step.None? || step == Some(NoTargetPath) || step == Some(CopyOut(false)) ==> item == r
    requires step == Some(RoundTrip) || step == Some(CopyOut(true)) ==> item == cur
    ensures item == cur.(sourceId := r.sourceId)
  {
    match step
    case None =>
    case Some(RoundTrip) =>
    case Some(CopyOut(ok)) =>
      if !ok {
        assert cur.(sourceId := r.sourceId) == r;
      }
    case Some(NoTargetPath) =>
      assert cur.(sourceId := r.sourceId) == r;
  }

  /**
   * Phase -1 (useDiskSync.ts:319-342): a file of the local vault whose record
   * moved to a linked source goes back to its original file when that is
   * still in the source's folder, and is copied there otherwise; a source
   * without a folder only puts the stored record back to 'internal'.
   */
  method MoveOutPhase(db: Db, host: Host.MainProcess, id: string, dbItem: ImageRecord, original: ImageRecord,
                      sources: seq<LibrarySource>, vault: string, now: int)
    returns (item: ImageRecord, notices: seq<Notice>, step: Option<Move>, ghost target: string, ghost from: string)
    requires id in db.images && db.images[id] == dbItem
    modifies db`images, host`files, host`dirs, host`allowedPaths, host`ignoredPaths, host`timers
    ensures Relocated(old(db.images), db.images, id)
    ensures MoveCur(step, original, dbItem, db.images[id], sources, vault)
    ensures MoveLocal(step, dbItem, item, db.images[id], notices)
    ensures step.None? ==> host.files == old(host.files)
    ensures step == Some(RoundTrip) <==>
      MovesOut(original, dbItem, vault) && Truthy(TargetVault(sources, dbItem.sourceId)) &&
      ReturnsHome(dbItem.originalSrc, TargetVault(sources, dbItem.sourceId).value) &&
      old(host.Exists(FsPathOr(dbItem.originalSrc.value)))
    ensures step == Some(CopyOut(true)) ==> !old(host.Exists(target)) && item.src == Some(SyncEngine.FileUrl(target))
    ensures step.Some? ==> PriorSrc(original, dbItem).Some? && from == FsPathOr(PriorSrc(original, dbItem).value)
    ensures step == Some(NoTargetPath) ==> host.files == old(host.files)
    ensures step == Some(RoundTrip) ==> Host.OnlyRemoved(old(host.files), host.files, Host.TrashSet(from))
    ensures step == Some(CopyOut(true)) ==>
      from in old(host.files) &&
      Host.OnlyRemoved(Host.SidecarsWritten(old(host.files)[target := old(host.files)[from]], target, Some(CopyMetadata(dbItem))),
                  host.files, Host.TrashSet(from))
    ensures step == Some(CopyOut(true)) && !Host.SidecarNamed(target) ==> target in host.files && host.files[target] == old(host.files)[from]
  {
    item, notices, step, target, from := dbItem, [], None, "", "";
    if !NeedsRemoveFromLocal(original, dbItem) {
      RelocatedSame(db.images, id);
      return;
    }
    var oldFsPath := FsPathOr(PriorSrc(original, dbItem).value);
    from := oldFsPath;
    if !InFolder(oldFsPath, vault) {
      RelocatedSame(db.images, id);
      return;
    }
    var targetVault := TargetVault(sources, dbItem.sourceId);
    if Truthy(targetVault) {
      var moved;
      item, notices, moved, target := MoveToTargetVault(db, host, id, dbItem, oldFsPath, targetVault.value, now);
      step := Some(moved);
      TargetStep(original, dbItem, db.images[id], item, notices, moved, sources, vault, target);
    } else {
      var _ := db.Update(id, map[SourceId := Str(INTERNAL)]);
      UpdatedSourceId(dbItem, INTERNAL);
      LocationOnlyKeepsEditable(dbItem, map[SourceId := Str(INTERNAL)]);
      step := Some(NoTargetPath);
      NoTargetStep(original, dbItem, db.images[id], sources, vault);
    }
  }

  /** A move to a source with a folder ends as the round trip or the copy out says. */
  lemma TargetStep(o: ImageRecord, r: ImageRecord, cur: ImageRecord, item: ImageRecord, notices: seq<Notice>, step: Move,
                   sources: seq<LibrarySource>, vault: string, target: string)
    requires MovesOut(o, r, vault) && Truthy(TargetVault(sources, r.sourceId)) && step != NoTargetPath
    requires step == RoundTrip ==> item == r.(src := r.originalSrc, originalSrc := None) && cur == item && notices == []
    requires step == CopyOut(false) ==>
      item == r && cur == r.(sourceId := INTERNAL) && notices == [Notice(Toaster.Error, COPY_OUT_FAILED)]
    requires step == CopyOut(true) ==>
      item == r.(src := Some(SyncEngine.FileUrl(target)), originalSrc := None) && cur == item && notices == []
    ensures MoveCur(Some(step), o, r, cur, sources, vault)
    ensures MoveLocal(Some(step), r, item, cur, notices)
  {
    assert r.sourceId != INTERNAL && !NeedsCopyToLocal(o, r);
    match step
    case RoundTrip =>
    case CopyOut(ok) =>
      if ok {
        assert IsFileUrl(cur.src);
      }
  }

  /** A move to a source without a folder only makes the stored record internal. */
  lemma NoTargetStep(o: ImageRecord, r: ImageRecord, cur: ImageRecord, sources: seq<LibrarySource>, vault: string)
    requires MovesOut(o, r, vault) && !Truthy(TargetVault(sources, r.sourceId))
    requires cur == r.(sourceId := INTERNAL)
    ensures MoveCur(Some(NoTargetPath), o, r, cur, sources, vault)
    ensures MoveLocal(Some(NoTargetPath), r, r, cur, [])
  {
  }

  /** `dataUrl: dbItem.src?.startsWith('data:') ? dbItem.src : undefined`, as the blob its fetch gives. */
  function DataFetch(r: ImageRecord, fetched: Option<Blob>): Option<Blob>
  {
    if r.src.Some? && StartsWith(r.src.value, "data:") then fetched else None
  }

  /** `result.error || "SyncEngine save failed"` */
  function SaveError(error: Option<string>): string
  {
    if error.Some? && error.value != "" then error.value else SAVE_FAILED
  }

  /**
   * saveMemoryToDisk (useDiskSync.ts:156-187): the image is saved into the
   * local vault under its own id, which points the stored record at the new
   * internal file and drops its blob; a failed save is an error.
   * `fetched` is what fetching a data URL src gives, `nowIso` the clock.
   */
  method SaveMemoryToDisk(engine: SyncEngine.Engine, db: Db, host: Host.MainProcess, id: string, dbItem: ImageRecord,
                          original: ImageRecord, vault: string, fetched: Option<Blob>, nowIso: string, now: int)
    returns (r: Result<ImageRecord>, ghost saved: string)
    requires id in db.images && db.images[id] == dbItem
    modifies engine`log, db`images, host`files, host`dirs, host`allowedPaths, host`ignoredPaths, host`timers
    ensures vault == "" ==> r == Failure("Vault path not configured") && host.files == old(host.files)
    ensures r.Success? ==>
      SyncEngine.Payload(dbItem.blob, DataFetch(dbItem, fetched)).Some? &&
      r.value.src == Some(SyncEngine.FileUrl(saved)) && saved in host.files &&
      host.files[saved] == Host.Binary(SyncEngine.Payload(dbItem.blob, DataFetch(dbItem, fetched)).value.data)
    ensures vault != "" && SyncEngine.Payload(dbItem.blob, DataFetch(dbItem, fetched)).None? ==> r == Failure(SyncEngine.NO_IMAGE_DATA)
    ensures r.Failure? ==> db.images == old(db.images)
    ensures r.Success? ==>
      IsFileUrl(r.value.src) && r.value == dbItem.(src := r.value.src, sourceId := INTERNAL, blob := None) &&
      db.images == old(db.images)[id := r.value]
    ensures Relocated(old(db.images), db.images, id)
  {
    var title := if original.title != "" then original.title else dbItem.title;
    var res, savedPath := engine.SaveNewImage(db, host, title, Some(dbItem.prompt), dbItem.blob, DataFetch(dbItem, fetched),
                                              vault, Some(id), id, nowIso, now);
    saved := savedPath;
    if res.success && res.src.Some? && res.src.value != "" {
      // the forced id names the stored record, which saveNewImage repoints at the
      // file it wrote; its src is then a file:// URL, so the repair at
      // useDiskSync.ts:179-182 has nothing to do
      SyncEngine.RepointedRecord(dbItem, res.src.value);
      LocationOnlyKeepsEditable(dbItem, SyncEngine.Repointed(res.src.value));
      var newDbItem := db.Get(id).value;
      assert res.src.value[..|FILE_SCHEME|] == FILE_SCHEME;
      r := Success(newDbItem);
    } else {
      RelocatedSame(db.images, id);
      r := Failure(SaveError(res.error));
    }
  }

  /**
   * `renameFile(fsPath, target)` for paths that differ in more than letter
   * case, and `rRes.finalPath || target` when it succeeds: the target itself
   * when it was free.
   */
  method TryRename(host: Host.MainProcess, fsPath: string, target: string, now: int) returns (actual: Option<string>)
    requires target != "" && ToLower(fsPath) != ToLower(target)
    modifies host`files, host`ignoredPaths, host`timers
    ensures actual.Some? ==> actual.value != "" && (!old(host.Exists(target)) ==> actual.value == target)
    ensures actual.Some? && old(host.Exists(target)) ==> !old(host.Exists(actual.value))
    ensures actual.Some? ==> host.files == Host.Renamed(old(host.files), fsPath, actual.value)
    ensures old(host.IsPathAllowed(Host.Dirname(fsPath))) && old(host.IsPathAllowed(Host.Dirname(target))) && host.faulty == {} ==>
      actual.Some?
    ensures actual.None? ==> old(host.ignoredPaths) <= host.ignoredPaths
  {
    var rRes := host.RenameFile(fsPath, target, now);
    if rRes.Failure? {
      return None;
    }
    actual := Some(if rRes.value != "" then rRes.value else target);
  }

  /** The clean-up after a rename (useDiskSync.ts:218-229): a file left at the old path, then the old sidecars, go to the trash. */
  method ClearOldFiles(host: Host.MainProcess, fsPath: string, oldBase: string)
    modifies host`files, host`dirs
    ensures host.IsPathAllowed(Host.Dirname(fsPath)) ==> fsPath !in host.files
    ensures host.IsPathAllowed(Host.Dirname(oldBase + ".json")) ==> oldBase + ".json" !in host.files
    ensures host.IsPathAllowed(Host.Dirname(oldBase + ".txt")) ==> oldBase + ".txt" !in host.files
    ensures host.files.Keys <= old(host.files.Keys)
    ensures Host.OnlyRemoved(old(host.files), host.files, Host.CleanupSet(fsPath, oldBase))
  {
    Host.StripSidecar(oldBase, ".json");
    Host.StripSidecar(oldBase, ".txt");
    if host.Exists(fsPath) {
      var _ := host.TrashFile(fsPath);
    }
    var _ := host.TrashFile(oldBase + ".json");
    var _ := host.TrashFile(oldBase + ".txt");
  }

  /**
   * handleFileRename (useDiskSync.ts:189-240): when the titles differ and the
   * file may be renamed, it moves to the sanitised new title in its folder,
   * the record follows it, and whatever is left at the old path and the old
   * sidecars go to the trash. `renamed` says whether renameFile succeeded.
   */
  method HandleFileRename(db: Db, host: Host.MainProcess, id: string, dbItem: ImageRecord, original: ImageRecord,
                          fsPath: string, isExternal: bool, renameLinked: bool, now: int)
    returns (newFsPath: string, newItem: ImageRecord, ghost attempted: bool, ghost renamed: bool)
    requires id in db.images
    modifies db`images, host`files, host`dirs, host`ignoredPaths, host`timers
    ensures Relocated(old(db.images), db.images, id)
    ensures attempted <==> RenameAttempted(OldTitle(original, dbItem), dbItem.title, fsPath, isExternal, renameLinked)
    ensures renamed ==> attempted
    ensures !attempted ==> host.files == old(host.files)
    ensures !renamed ==> newFsPath == fsPath && newItem == dbItem && db.images == old(db.images)
    ensures renamed ==>
      newFsPath != "" &&
      (!old(host.Exists(RenameTargetPath(fsPath, dbItem.title))) ==> newFsPath == RenameTargetPath(fsPath, dbItem.title)) &&
      newItem == old(db.images[id]).(src := Some(SyncEngine.FileUrl(newFsPath))) && db.images == old(db.images)[id := newItem]
    ensures renamed ==>
      Host.OnlyRemoved(Host.Renamed(old(host.files), fsPath, newFsPath), host.files, Host.CleanupSet(fsPath, BeforeLastDot(fsPath)))
    ensures renamed && fsPath in old(host.files) && !Host.SidecarNamed(fsPath) && !Host.SidecarNamed(newFsPath) ==>
      newFsPath in host.files && host.files[newFsPath] == old(host.files)[fsPath]
    ensures (attempted && old(host.IsPathAllowed(Host.Dirname(fsPath))) &&
             old(host.IsPathAllowed(Host.Dirname(RenameTargetPath(fsPath, dbItem.title)))) && host.faulty == {}) ==> renamed
    ensures renamed && host.IsPathAllowed(Host.Dirname(fsPath)) ==> fsPath !in host.files
    ensures renamed && host.IsPathAllowed(Host.Dirname(BeforeLastDot(fsPath) + ".json")) ==>
      BeforeLastDot(fsPath) + ".json" !in host.files
    ensures renamed && host.IsPathAllowed(Host.Dirname(BeforeLastDot(fsPath) + ".txt")) ==>
      BeforeLastDot(fsPath) + ".txt" !in host.files
  {
    newFsPath, newItem, attempted, renamed := fsPath, dbItem, false, false;
    RelocatedSame(db.images, id);
    var oldT := OldTitle(original, dbItem);
    var newT := dbItem.title;
    var shouldRename := !isExternal || renameLinked;
    if !(shouldRename && newT != "" && oldT != "" && newT != oldT) {
      return;
    }
    var targetRename := RenameTargetPath(fsPath, newT);
    if ToLower(fsPath) == ToLower(targetRename) {
      return;
    }
    attempted := true;
    var oldBase := BeforeLastDot(fsPath);
    assert |targetRename| > 0;
    ghost var before := host.files;
    ghost var targetTaken := host.Exists(targetRename);
    var actualPath := TryRename(host, fsPath, targetRename, now);
    if actualPath.None? {
      return;
    }
    renamed := true;
    ghost var moved := host.files;
    var updatedSrc := SyncEngine.FileUrl(actualPath.value);
    ghost var stored := db.images;
    var _ := db.Update(id, map[Src := Str(updatedSrc)]);
    UpdatedSrc(stored[id], updatedSrc);
    LocationOnlyKeepsEditable(stored[id], map[Src := Str(updatedSrc)]);
    ClearOldFiles(host, fsPath, oldBase);
    newFsPath := actualPath.value;
    newItem := db.images[id];
    if fsPath in before && !Host.SidecarNamed(fsPath) && !Host.SidecarNamed(newFsPath) {
      assert newFsPath != fsPath by {
        if !targetTaken {
          assert newFsPath == targetRename;
        }
      }
      RenameSurvives(before, fsPath, newFsPath, host.files, oldBase);
    }
  }

  /**
   * syncMetadataAndSidecars (useDiskSync.ts:242-254): the record's title,
   * prompt, rating and tags are embedded in the file and its sidecars are
   * rewritten next to it.
   */
  method SyncMetadataAndSidecars(host: Host.MainProcess, id: string, item: ImageRecord, fsPath: string, now: int)
    modifies host`exif, host`files, host`dirs, host`allowedPaths, host`ignoredPaths, host`timers
    ensures old(host.IsPathAllowed(Host.Dirname(fsPath))) && fsPath in old(host.files) && fsPath !in host.faulty ==>
      fsPath in host.exif &&
      host.exif[fsPath] == Host.MainProcess.Merged(old(host.exif), fsPath, Host.ExifWriteData(item.title, item.prompt, item.rating, Some(item.tags)))
    ensures var b := SyncEngine.SidecarBase(fsPath);
      b.Success? && old(host.IsPathAllowed(Host.Dirname(b.value + ".json"))) && b.value + ".json" !in host.faulty ==>
        b.value + ".json" in host.files && host.files[b.value + ".json"] == Host.Json(SyncEngine.SidecarObject(id, item))
    ensures forall q :: ImageNamed(q) ==>
      (q in host.files <==> q in old(host.files)) && (q in host.files ==> host.files[q] == old(host.files)[q])
  {
    var _ := host.WriteMetadata(fsPath, item.title, item.prompt, item.rating, Some(item.tags), now);
    SyncEngine.WriteSidecar(host, id, fsPath, item, now);
    var b := SyncEngine.SidecarBase(fsPath);
    if b.Success? {
      forall q | ImageNamed(q) ensures q !in SyncEngine.SidecarWrites(b.value, now) {
        ImageNamedNotWritten(q, b.value, now);
      }
    }
  }

  /** Phase 2 as the finishing step uses it: what handleFileRename did to the record and to the renamed file. */
  method RenameStep(db: Db, host: Host.MainProcess, id: string, dbItem: ImageRecord, original: ImageRecord,
                    fsPath: string, isExternal: bool, renameLinked: bool, now: int)
    returns (newFsPath: string, newItem: ImageRecord, ghost attempted: bool, ghost renamed: bool)
    requires id in db.images
    modifies db`images, host`files, host`dirs, host`ignoredPaths, host`timers
    ensures Relocated(old(db.images), db.images, id)
    ensures attempted <==> RenameAttempted(OldTitle(original, dbItem), dbItem.title, fsPath, isExternal, renameLinked)
    ensures renamed ==> attempted
    ensures (attempted && host.AllowedWith(old(host.allowedPaths), Host.Dirname(fsPath)) &&
             host.AllowedWith(old(host.allowedPaths), Host.Dirname(RenameTargetPath(fsPath, dbItem.title))) &&
             host.faulty == {}) ==> renamed
    ensures !renamed ==> newFsPath == fsPath && newItem == dbItem && db.images == old(db.images)
    ensures renamed ==>
      newItem == db.images[id] && db.images[id] == old(db.images[id]).(src := db.images[id].src) &&
      db.images[id].src == Some(SyncEngine.FileUrl(newFsPath))
    ensures renamed && fsPath in old(host.files) && !Host.SidecarNamed(fsPath) && ImageNamed(newFsPath) ==>
      newFsPath in host.files && host.files[newFsPath] == old(host.files)[fsPath]
  {
    newFsPath, newItem, attempted, renamed := HandleFileRename(db, host, id, dbItem, original, fsPath, isExternal, renameLinked, now);
  }

  /**
   * Phases 2 to 4 (useDiskSync.ts:364-380): a src that resolves to no path
   * ends the sync; otherwise the file is renamed if it should be, and the
   * metadata is written to the path it ends up at, the old one when the
   * rename failed.
   */
  method FinishPhase(db: Db, host: Host.MainProcess, id: string, dbItem: ImageRecord, original: ImageRecord,
                     isExternal: bool, renameLinked: bool, now: int)
    returns (shown: ImageRecord, ghost resolved: bool, ghost attempted: bool, ghost renamed: bool, ghost path: string)
    requires id in db.images
    modifies db`images, host`exif, host`files, host`dirs, host`allowedPaths, host`ignoredPaths, host`timers
    ensures Relocated(old(db.images), db.images, id)
    ensures resolved <==> FsPathOr(SrcOrEmpty(dbItem)) != ""
    ensures !resolved ==> db.images == old(db.images) && host.files == old(host.files)
    ensures attempted <==>
      resolved && RenameAttempted(OldTitle(original, dbItem), dbItem.title, FsPathOr(SrcOrEmpty(dbItem)), isExternal, renameLinked)
    ensures renamed ==> attempted
    ensures var p := FsPathOr(SrcOrEmpty(dbItem));
      (attempted && host.AllowedWith(old(host.allowedPaths), Host.Dirname(p)) &&
       host.AllowedWith(old(host.allowedPaths), Host.Dirname(RenameTargetPath(p, dbItem.title))) && host.faulty == {}) ==> renamed
    ensures !renamed ==> shown == ToUI(dbItem) && db.images == old(db.images) && path == FsPathOr(SrcOrEmpty(dbItem))
    ensures renamed ==> shown == ToUI(db.images[id]) && db.images[id] == old(db.images[id]).(src := db.images[id].src)
    ensures renamed ==> db.images[id].src == Some(SyncEngine.FileUrl(path))
    ensures var p := FsPathOr(SrcOrEmpty(dbItem));
      renamed && p in old(host.files) && !Host.SidecarNamed(p) && ImageNamed(path) ==>
        path in host.files && host.files[path] == old(host.files)[p]
    ensures var b := SyncEngine.SidecarBase(path);
      resolved && b.Success? && host.AllowedWith(old(host.allowedPaths), Host.Dirname(b.value + ".json")) &&
      b.value + ".json" !in host.faulty ==>
        b.value + ".json" in host.files &&
        host.files[b.value + ".json"] == Host.Json(SyncEngine.SidecarObject(id, if renamed then db.images[id] else dbItem))
  {
    var fsPath := FsPathOr(SrcOrEmpty(dbItem));
    if fsPath == "" {
      RelocatedSame(db.images, id);
      return ToUI(dbItem), false, false, false, fsPath;
    }
    resolved := true;
    var newFsPath, newItem;
    newFsPath, newItem, attempted, renamed := RenameStep(db, host, id, dbItem, original, fsPath, isExternal, renameLinked, now);
    path := newFsPath;
    SyncMetadataAndSidecars(host, id, newItem, newFsPath, now);
    shown := ToUI(newItem);
  }

  // ---------------------------------------------------------------- performDiskSync

  /** performDiskSync gets past its guards (useDiskSync.ts:277-278). */
  predicate Active(isElectron: bool, hasApi: bool, settings: Settings.GeneralSettings, original: Option<ImageRecord>)
  {
    isElectron && hasApi && settings.localVaultPath != "" && original.Some?
  }

  /** An internal record held only in memory, which phase 1 saves (useDiskSync.ts:356-358). */
  predicate MemoryOnly(r: ImageRecord)
  {
    r.sourceId == INTERNAL && !IsFileUrl(r.src) && InMemory(r)
  }

  /**
   * Which phases ran, and how each ended: the reassignment and the source it
   * chose, phase -1 (`moved`, one of RoundTrip, CopyOut and NoTargetPath),
   * phase 0 (`copied`), phase 1 (`saved`), phase 2 (`renamed`) and phase 3
   * with the sidecar write (`meta`).
   */
  datatype Run = Run(linked: Option<string>, moved: Option<Move>, copied: Option<bool>,
                     saved: Option<bool>, renamed: Option<bool>, meta: bool)


  /** The stored record `mid` that phase 0 left, as it succeeded or not. */
  predicate CopyCur(ok: bool, o: ImageRecord, r: ImageRecord, mid: ImageRecord)
  {
    (ok ==> IsFileUrl(mid.src) && mid == r.(src := mid.src, blob := None, sourceId := INTERNAL, originalSrc := r.src)) &&
    (!ok ==> mid == if FsPathOr(SrcOrEmpty(r)) != "" then r.(sourceId := o.sourceId) else r)
  }

  /**
   * What the reassignment and phases -1 and 0 did, as the caller's copy
   * `o`, the stored record `b` and the sources decide; `mid` is the stored
   * record afterwards.
   */
  ghost predicate Transferred(linked: Option<string>, moved: Option<Move>, copied: Option<bool>, o: ImageRecord, b: ImageRecord,
                              mid: ImageRecord, sources: seq<LibrarySource>, vault: string)
  {
    var r := Relinked(o, b, sources, vault);
    linked == RelinkTarget(o, b, sources, vault) &&
    (copied.Some? <==> NeedsCopyToLocal(o, r)) &&
    (copied.None? ==> MoveCur(moved, o, r, mid, sources, vault)) &&
    (copied.Some? ==> moved.None? && CopyCur(copied.value, o, r, mid))
  }

  /** The notice phase -1 raises: one when the copy to the external vault failed. */
  function MoveNotices(moved: Option<Move>): seq<Notice>
  {
    if moved == Some(CopyOut(false)) then [Notice(Toaster.Error, COPY_OUT_FAILED)] else []
  }

  /** The notices of a run: phase -1's, then the error a failed save reports. */
  predicate Reported(moved: Option<Move>, saved: Option<bool>, notices: seq<Notice>)
  {
    var pre := MoveNotices(moved);
    (saved != Some(false) ==> notices == pre) &&
    (saved == Some(false) ==>
      |notices| == |pre| + 1 && notices[..|pre|] == pre &&
      notices[|pre|].kind == Toaster.Error && StartsWith(notices[|pre|].message, "Disk sync failed: "))
  }

  /**
   * Phases 1 to 4 took the stored record from `mid` to `after`: a save
   * points it at an internal file and drops its blob, a rename changes only
   * its src, and a failed save ends the sync with the record as it was.
   * The record shown is the hook's local copy `local` when neither a save
   * nor a rename replaced it, and the stored one otherwise.
   */
  predicate Completed(saved: Option<bool>, renamed: Option<bool>, meta: bool, res: SyncReturn, mid: ImageRecord,
                      local: ImageRecord, after: ImageRecord)
  {
    (renamed.Some? ==> meta) &&
    (saved == Some(false) ==> renamed.None? && !meta && res == Shown(ToUI(after)) && after == mid) &&
    (saved == Some(true) ==>
      after == mid.(src := after.src, sourceId := INTERNAL, blob := None) && (renamed != Some(true) ==> IsFileUrl(after.src))) &&
    (saved.None? ==> after == mid.(src := after.src) && (renamed != Some(true) ==> after == mid)) &&
    (saved != Some(false) ==> res == Shown(ToUI(if saved.None? && renamed != Some(true) then local else after)))
  }

  /**
   * The result of a sync that got past its guards: `mid` is the stored
   * record after phase 0, `after` the one at the end.
   */
  ghost predicate Synced(run: Run, res: SyncReturn, notices: seq<Notice>, o: ImageRecord, b: ImageRecord,
                         mid: ImageRecord, after: ImageRecord, sources: seq<LibrarySource>, vault: string)
  {
    Transferred(run.linked, run.moved, run.copied, o, b, mid, sources, vault) &&
    Reported(run.moved, run.saved, notices) &&
    (run.copied == Some(false) ==>
      run.saved.None? && run.renamed.None? && !run.meta && res == Stored(Some(after)) && after == mid) &&
    (run.copied != Some(false) ==>
      (run.saved.Some? <==> MemoryOnly(Relinked(o, b, sources, vault))) &&
      Completed(run.saved, run.renamed, run.meta, res, mid, mid.(sourceId := Relinked(o, b, sources, vault).sourceId), after))
  }

  /** A sync that ended with phase 0's failure. */
  lemma SyncedStopped(linked: Option<string>, moved: Option<Move>, res: SyncReturn, notices: seq<Notice>,
                      o: ImageRecord, b: ImageRecord, mid: ImageRecord, sources: seq<LibrarySource>, vault: string)
    requires Transferred(linked, moved, Some(false), o, b, mid, sources, vault)
    requires notices == MoveNotices(moved) && res == Stored(Some(mid))
    ensures Synced(Run(linked, moved, Some(false), None, None, false), res, notices, o, b, mid, mid, sources, vault)
  {
  }

  /** A sync that went on past phase 0: the results of both halves put together. */
  lemma SyncedOf(linked: Option<string>, moved: Option<Move>, copied: Option<bool>, saved: Option<bool>,
                 renamed: Option<bool>, meta: bool, res: SyncReturn, pre: seq<Notice>, extra: seq<Notice>,
                 o: ImageRecord, b: ImageRecord, mid: ImageRecord, after: ImageRecord,
                 sources: seq<LibrarySource>, vault: string, gate: bool)
    requires Transferred(linked, moved, copied, o, b, mid, sources, vault)
    requires pre == MoveNotices(moved) && copied != Some(false)
    requires gate <==> MemoryOnly(Relinked(o, b, sources, vault))
    requires saved.Some? <==> gate
    requires Completed(saved, renamed, meta, res, mid, mid.(sourceId := Relinked(o, b, sources, vault).sourceId), after)
    requires saved != Some(false) ==> extra == []
    requires saved == Some(false) ==>
      |extra| == 1 && extra[0].kind == Toaster.Error && StartsWith(extra[0].message, "Disk sync failed: ")
    ensures Synced(Run(linked, moved, copied, saved, renamed, meta), res, pre + extra, o, b, mid, after, sources, vault)
  {
    if saved == Some(false) {
      assert (pre + extra)[..|pre|] == pre;
    }
  }

  /**
   * The reassignment, phase -1 and phase 0 (useDiskSync.ts:280-351).
   * `item` is the hook's local `dbItem` afterwards, which a failed move out
   * leaves as it was; `stop` says that the copy into the local vault failed.
   */
  method Transfer(db: Db, host: Host.MainProcess, id: string, original: ImageRecord, sources: seq<LibrarySource>,
                  vault: string, now: int)
    returns (item: ImageRecord, isExternal: bool, stop: bool, notices: seq<Notice>,
             ghost linked: Option<string>, ghost moved: Option<Move>, ghost copied: Option<bool>)
    requires id in db.images
    modifies db`images, host`files, host`dirs, host`allowedPaths, host`ignoredPaths, host`timers
    ensures Relocated(old(db.images), db.images, id)
    ensures Transferred(linked, moved, copied, original, old(db.images[id]), db.images[id], sources, vault)
    ensures stop <==> copied == Some(false)
    ensures notices == MoveNotices(moved)
    ensures copied.Some? ==> !MemoryOnly(Relinked(original, old(db.images[id]), sources, vault))
    ensures !stop && !isExternal ==> item == db.images[id]
    ensures !stop ==> item == db.images[id].(sourceId := Relinked(original, old(db.images[id]), sources, vault).sourceId)
    ensures !stop ==>
      ((!isExternal && !IsFileUrl(item.src) && InMemory(item)) <==> MemoryOnly(Relinked(original, old(db.images[id]), sources, vault)))
  {
    var dbItem := db.Get(id).value;
    var relinkedTo;
    dbItem, relinkedTo := RelinkPhase(db, id, dbItem, original, sources, vault);
    ghost var afterRelink := db.images;
    var needsCopyToLocal := NeedsCopyToLocal(original, dbItem);
    linked := relinkedTo;
    ghost var target;
    ghost var from;
    ghost var relinked := dbItem;
    dbItem, notices, moved, target, from := MoveOutPhase(db, host, id, dbItem, original, sources, vault, now);
    MovedLocal(moved, relinked, dbItem, db.images[id]);
    RelocatedTrans(old(db.images), afterRelink, db.images, id);
    isExternal := dbItem.sourceId != INTERNAL && !needsCopyToLocal;
    stop := false;
    copied := None;
    if needsCopyToLocal {
      ghost var beforeCopy := db.images;
      var result;
      result, target := CopyToLocalVault(db, host, id, dbItem, vault, original.sourceId, now);
      RelocatedTrans(old(db.images), beforeCopy, db.images, id);
      copied := Some(result.Some?);
      if result.None? {
        stop := true;
        item := dbItem;
        return;
      }
      dbItem := result.value;
      assert dbItem.src.value[..|FILE_SCHEME|] == FILE_SCHEME;
    }
    item := dbItem;
  }

  /**
   * Phases 1 to 4 (useDiskSync.ts:353-383): a record held only in memory is
   * saved into the local vault first, and a failed save is reported and ends
   * the sync with the stored record; then the file is renamed and its
   * metadata written.
   */
  method Complete(engine: SyncEngine.Engine, db: Db, host: Host.MainProcess, id: string, item: ImageRecord, isExternal: bool,
                  o: ImageRecord, vault: string, renameLinked: bool, fetched: Option<Blob>, nowIso: string, now: int)
    returns (res: SyncReturn, extra: seq<Notice>, ghost saved: Option<bool>, ghost renamed: Option<bool>, ghost meta: bool)
    requires id in db.images
    requires !isExternal ==> item == db.images[id]
    modifies engine`log, db`images, host`exif, host`files, host`dirs, host`allowedPaths, host`ignoredPaths, host`timers
    ensures Relocated(old(db.images), db.images, id)
    ensures saved.Some? <==> !isExternal && !IsFileUrl(item.src) && InMemory(item)
    ensures Completed(saved, renamed, meta, res, old(db.images[id]), item, db.images[id])
    ensures saved != Some(false) ==> extra == []
    ensures saved == Some(false) ==>
      |extra| == 1 && extra[0].kind == Toaster.Error && StartsWith(extra[0].message, "Disk sync failed: ")
  {
    saved, renamed, meta, extra := None, None, false, [];
    var current := item;
    if !isExternal && !IsFileUrl(item.src) && InMemory(item) {
      ghost var savedPath;
      var result;
      result, savedPath := SaveMemoryToDisk(engine, db, host, id, item, o, vault, fetched, nowIso, now);
      saved := Some(result.Success?);
      if result.Failure? {
        var message := "Disk sync failed: " + result.error;
        assert message[..18] == "Disk sync failed: ";
        extra := [Notice(Toaster.Error, message)];
        var fallback := db.Get(id);
        res := if fallback.Some? then Shown(ToUI(fallback.value)) else Placeholder(id, "Error");
        return;
      }
      current := result.value;
    } else {
      RelocatedSame(db.images, id);
    }
    ghost var beforeFinish := db.images;
    ghost var resolved, attempted, wasRenamed, path;
    var shown;
    shown, resolved, attempted, wasRenamed, path := FinishPhase(db, host, id, current, o, isExternal, renameLinked, now);
    RelocatedTrans(old(db.images), beforeFinish, db.images, id);
    renamed, meta := if attempted then Some(wasRenamed) else None, resolved;
    res := Shown(shown);
  }

  /** A sync past its guards (useDiskSync.ts:280-383): the phases in order, and the catch that reports a failed save. */
  method SyncActive(engine: SyncEngine.Engine, db: Db, host: Host.MainProcess, settings: Settings.GeneralSettings,
                    sources: seq<LibrarySource>, id: string, o: ImageRecord, fetched: Option<Blob>, nowIso: string, now: int)
    returns (res: SyncReturn, notices: seq<Notice>, ghost run: Run, ghost mid: ImageRecord)
    requires id in db.images
    modifies engine`log, db`images, host`exif, host`files, host`dirs, host`allowedPaths, host`ignoredPaths, host`timers
    ensures Relocated(old(db.images), db.images, id)
    ensures Synced(run, res, notices, o, old(db.images[id]), mid, db.images[id], sources, settings.localVaultPath)
  {
    var vault := settings.localVaultPath;
    ghost var b := db.images[id];
    var item, isExternal, stop;
    ghost var linked, moved, copied;
    item, isExternal, stop, notices, linked, moved, copied := Transfer(db, host, id, o, sources, vault, now);
    mid := db.images[id];
    if stop {
      run := Run(linked, moved, copied, None, None, false);
      res := Stored(db.Get(id));
      SyncedStopped(linked, moved, res, notices, o, b, mid, sources, vault);
      return;
    }
    ghost var gate := !isExternal && !IsFileUrl(item.src) && InMemory(item);
    ghost var afterTransfer := db.images;
    var extra;
    ghost var saved, renamed, meta;
    res, extra, saved, renamed, meta := Complete(engine, db, host, id, item, isExternal, o, vault,
                                                 settings.renameLinkedVaultFiles, fetched, nowIso, now);
    RelocatedTrans(old(db.images), afterTransfer, db.images, id);
    SyncedOf(linked, moved, copied, saved, renamed, meta, res, notices, extra, o, b, mid, db.images[id], sources, vault, gate);
    run := Run(linked, moved, copied, saved, renamed, meta);
    notices := notices + extra;
  }

  /**
   * The body of performDiskSync between lock and unlock (useDiskSync.ts:272-385):
   * a record that is gone gives a placeholder, and outside the desktop app,
   * without its file API, without a local vault or without the caller's copy
   * the stored record is shown as it is.
   */
  method SyncLocked(engine: SyncEngine.Engine, db: Db, host: Host.MainProcess, isElectron: bool, hasApi: bool,
                    settings: Settings.GeneralSettings, sources: seq<LibrarySource>, id: string, original: Option<ImageRecord>,
                    fetched: Option<Blob>, nowIso: string, now: int)
    returns (res: SyncReturn, notices: seq<Notice>, ghost run: Run, ghost mid: Option<ImageRecord>)
    modifies engine`log, db`images, host`exif, host`files, host`dirs, host`allowedPaths, host`ignoredPaths, host`timers
    ensures id !in old(db.images) ==>
      res == Placeholder(id, "Deleted") && notices == [] && db.images == old(db.images) && host.files == old(host.files)
    ensures id in old(db.images) ==> Relocated(old(db.images), db.images, id)
    ensures id in old(db.images) && !Active(isElectron, hasApi, settings, original) ==>
      res == Shown(ToUI(old(db.images[id]))) && notices == [] && db.images == old(db.images) && host.files == old(host.files)
    ensures id in old(db.images) && Active(isElectron, hasApi, settings, original) ==>
      mid.Some? && Synced(run, res, notices, original.value, old(db.images[id]), mid.value, db.images[id], sources, settings.localVaultPath)
  {
    run, mid := Run(None, None, None, None, None, false), None;
    var found := db.Get(id);
    if found.None? {
      return Placeholder(id, "Deleted"), [], run, mid;
    }
    if !isElectron || !hasApi || settings.localVaultPath == "" || original.None? {
      RelocatedSame(db.images, id);
      return Shown(ToUI(found.value)), [], run, mid;
    }
    ghost var m;
    res, notices, run, m := SyncActive(engine, db, host, settings, sources, id, original.value, fetched, nowIso, now);
    mid := Some(m);
  }

  /**
   * performDiskSync (useDiskSync.ts:263-389). A lock held by another sync is
   * waited on once; `heldAfterWait` says whether it was still held then, in
   * which case the stored record is returned and nothing is touched. Every
   * other call takes the lock and gives it back on the way out. `isElectron`
   * and `hasApi` are the environment tests, `fetched` the blob a data URL src
   * yields, `nowIso` and `now` the clock. The run records which phases ran
   * and how each ended.
   */
  method PerformDiskSync(engine: SyncEngine.Engine, db: Db, host: Host.MainProcess, isElectron: bool, hasApi: bool,
                         settings: Settings.GeneralSettings, sources: seq<LibrarySource>, id: string,
                         original: Option<ImageRecord>, heldAfterWait: bool, fetched: Option<Blob>, nowIso: string, now: int)
    returns (res: SyncReturn, notices: seq<Notice>, ghost run: Run, ghost mid: Option<ImageRecord>)
    modifies engine`locks, engine`log, db`images, host`exif, host`files, host`dirs, host`allowedPaths, host`ignoredPaths, host`timers
    ensures old(id in engine.locks) && heldAfterWait ==>
      res == Stored(old(db.Get(id))) && notices == [] && engine.locks == old(engine.locks) &&
      db.images == old(db.images) && host.files == old(host.files)
    ensures !(old(id in engine.locks) && heldAfterWait) ==> engine.locks == old(engine.locks) - {id}
    ensures !(old(id in engine.locks) && heldAfterWait) && id !in old(db.images) ==>
      res == Placeholder(id, "Deleted") && notices == [] && db.images == old(db.images) && host.files == old(host.files)
    ensures id in old(db.images) ==> Relocated(old(db.images), db.images, id)
    ensures !(old(id in engine.locks) && heldAfterWait) && id in old(db.images) && !Active(isElectron, hasApi, settings, original) ==>
      res == Shown(ToUI(old(db.images[id]))) && notices == [] && db.images == old(db.images) && host.files == old(host.files)
    ensures !(old(id in engine.locks) && heldAfterWait) && id in old(db.images) && Active(isElectron, hasApi, settings, original) ==>
      mid.Some? && Synced(run, res, notices, original.value, old(db.images[id]), mid.value, db.images[id], sources, settings.localVaultPath)
  {
    run, mid := Run(None, None, None, None, None, false), None;
    if engine.IsLocked(id) {
      if heldAfterWait {
        if id in db.images {
          RelocatedSame(db.images, id);
        }
        return Stored(db.Get(id)), [], run, mid;
      }
      // the holder released the lock while this call waited
      engine.Unlock(id);
    }
    ghost var free := engine.locks;
    engine.Lock(id);
    res, notices, run, mid := SyncLocked(engine, db, host, isElectron, hasApi, settings, sources, id, original, fetched, nowIso, now);
    engine.Unlock(id);
    assert engine.locks == free;
  }

  // ---------------------------------------------------------------- properties

  /**
   * An illustration of SeparatorBounded on concrete paths: the reassignment
   * tests a folder with its '/' boundary, so a file of `/photos2` is not
   * taken for a source at `/photos`, and a file of `/photos` is. The
   * engine's own attribution takes both (SyncEngine.BarePrefixAttribution).
   */
  lemma ReassignmentIsSlashBounded()
    ensures FirstLinked([LibrarySource("s1", "Photos", LocalFolder, Some("/photos"), 0)], "/photos2/a.png") == None
    ensures FirstLinked([LibrarySource("s1", "Photos", LocalFolder, Some("/photos"), 0)], "/photos/a.png") == Some("s1")
  {
    assert SyncEngine.NormPath("/photos") == "/photos";
    assert DirPrefix("/photos") == "/photos/";
    var other := SyncEngine.NormPath("/photos2/a.png");
    assert other == "/photos2/a.png";
    assert other[..8][7] == '2' && "/photos/"[7] == '/';
    assert other[..8] != "/photos/";
    assert SyncEngine.NormPath("/photos/a.png") == "/photos/a.png";
    assert SyncEngine.NormPath("/photos/a.png")[..8] == "/photos/";
  }

  /** Normalising keeps a path's length and puts a '/' exactly where it had a separator. */
  lemma NormPathSlash(p: string, i: int)
    requires 0 <= i < |p|
    ensures |SyncEngine.NormPath(p)| == |p|
    ensures SyncEngine.NormPath(p)[i] == '/' <==> p[i] == '/' || p[i] == '\\'
  {
  }

  /**
   * Folder containment respects the separator for every folder and name: a
   * path that continues the folder's own last name (`/photos` + `2/a.png`) is
   * not inside it, whatever the folder.
   */
  lemma {:induction false} SiblingNotInFolder(folder: string, s: string)
    requires !EndsWith(SyncEngine.NormPath(folder), "/")
    requires s != [] && s[0] != '/' && s[0] != '\\'
    ensures !InFolder(folder + s, folder)
  {
    var n := SyncEngine.NormPath(folder);
    var q := SyncEngine.NormPath(folder + s);
    NormPathSlash(folder + s, |folder|);
    assert DirPrefix(folder) == n + "/";
    assert (n + "/")[|n|] == '/' != q[|n|];
    assert |q| > |n| ==> q[..|n| + 1][|n|] == q[|n|];
  }

  /** Every path that goes on from the folder after a '/' is inside it. */
  lemma {:induction false} ChildInFolder(folder: string, s: string)
    requires !EndsWith(SyncEngine.NormPath(folder), "/")
    ensures InFolder(folder + "/" + s, folder)
  {
    var n := SyncEngine.NormPath(folder);
    ReplaceCharAppend(folder, "/" + s, '\\', '/');
    ReplaceCharAppend("/", s, '\\', '/');
    ToLowerAppend(ReplaceChar(folder, '\\', '/'), ReplaceChar("/" + s, '\\', '/'));
    ToLowerAppend(ReplaceChar("/", '\\', '/'), ReplaceChar(s, '\\', '/'));
    assert folder + "/" + s == folder + ("/" + s);
    assert ToLower(ReplaceChar("/", '\\', '/')) == "/";
    assert SyncEngine.NormPath(folder + "/" + s) == n + "/" + SyncEngine.NormPath(s);
    assert DirPrefix(folder) == n + "/";
    assert (n + "/" + SyncEngine.NormPath(s))[..|n| + 1] == n + "/";
  }

  /**
   * The reassignment and the round trip both test containment with the
   * separator, for every root: the source at `root` links `root/...` and
   * never a sibling `root + s`, and a file at `root + s` never returns home
   * to `root`.
   */
  lemma SeparatorBounded(src: LibrarySource, originalSrc: string, s: string, rest: string)
    requires src.path.Some? && src.path.value != "" && !EndsWith(SyncEngine.NormPath(src.path.value), "/")
    requires s != [] && s[0] != '/' && s[0] != '\\'
    ensures LinkedBy(src, src.path.value + "/" + rest)
    ensures !LinkedBy(src, src.path.value + s)
    ensures FsPathOr(originalSrc) == src.path.value + s ==> !ReturnsHome(Some(originalSrc), src.path.value)
  {
    ChildInFolder(src.path.value, rest);
    SiblingNotInFolder(src.path.value, s);
  }

  /** A path of lower-case letters, digits, '/' and '.' is its own normal form. */
  lemma LowerSlashPath(p: string)
    requires forall i :: 0 <= i < |p| ==> p[i] == '/' || p[i] == '.' || 'a' <= p[i] <= 'z' || '0' <= p[i] <= '9'
    ensures SyncEngine.NormPath(p) == p
  {
    assert ReplaceChar(p, '\\', '/') == p;
    assert ToLower(p) == p;
  }

  /** `file:///ext/b.png` names `/ext/b.png`. */
  lemma ExtFile()
    ensures FsPathOr("file:///ext/b.png") == "/ext/b.png"
    ensures SyncEngine.NormPath("/ext/b.png") == "/ext/b.png"
  {
    assert StartsWith("file:///ext/b.png", "file:///") by {
      assert "file:///ext/b.png"[..8] == "file:///";
    }
    LowerSlashPath("/ext/b.png");
  }

  /** The round trip accepts an original file inside the target folder, given with or without a trailing '/'. */
  lemma RoundTripInsideFolder()
    ensures ReturnsHome(Some("file:///ext/b.png"), "/ext")
    ensures ReturnsHome(Some("file:///ext/b.png"), "/ext/")
  {
    ExtFile();
    assert SyncEngine.NormPath("/ext") == "/ext";
    assert SyncEngine.NormPath("/ext/") == "/ext/";
    assert DirPrefix("/ext") == "/ext/" == DirPrefix("/ext/");
  }

  /** An illustration of SiblingNotInFolder on concrete paths: the round trip refuses a file of a sibling folder whose name has the target's as a prefix. */
  lemma RoundTripNotSibling()
    ensures !ReturnsHome(Some("file:///ext2/b.png"), "/ext")
  {
    Ext2File();
    var p := "/ext2/b.png";
    assert SyncEngine.NormPath("/ext") == "/ext";
    assert DirPrefix("/ext") == "/ext/";
    assert p[..5][4] == '2' && "/ext/"[4] == '/';
    assert !StartsWith(p, "/ext/");
  }

  /** `file:///ext2/b.png` names `/ext2/b.png`. */
  lemma Ext2File()
    ensures FsPathOr("file:///ext2/b.png") == "/ext2/b.png"
    ensures SyncEngine.NormPath("/ext2/b.png") == "/ext2/b.png"
  {
    assert StartsWith("file:///ext2/b.png", "file:///") by {
      assert "file:///ext2/b.png"[..8] == "file:///";
    }
    LowerSlashPath("/ext2/b.png");
  }

  /**
   * A record the reassignment moved to a linked source, whose src the caller
   * did not change, is neither moved out of nor copied into the local vault
   * in the same sync: its file lies outside the vault.
   */
  lemma RelinkedStaysPut(o: ImageRecord, b: ImageRecord, sources: seq<LibrarySource>, vault: string)
    requires RelinkTarget(o, b, sources, vault).Some? && o.src == b.src
    ensures !MovesOut(o, Relinked(o, b, sources, vault), vault)
    ensures !NeedsCopyToLocal(o, Relinked(o, b, sources, vault))
  {
    var r := Relinked(o, b, sources, vault);
    assert r.src == b.src;
    assert PriorSrc(o, r) == b.src;
    assert FsPathOr(PriorSrc(o, r).value) == FsPathOr(SrcOrEmpty(b));
  }

  /**
   * What a sync did follows from the record and the caller's copy: phase -1
   * ran exactly when a file of the local vault moved to a source holding
   * the file's folder, phase 0 exactly when a linked file moved to
   * 'internal', and phase 1 exactly when neither did and the record lives
   * only in memory. At most one of the three ran, and a record the
   * reassignment moved, with its src unchanged by the caller, went through
   * none of them.
   */
  lemma SyncGating(run: Run, res: SyncReturn, notices: seq<Notice>, o: ImageRecord, b: ImageRecord,
                   mid: ImageRecord, after: ImageRecord, sources: seq<LibrarySource>, vault: string)
    requires Synced(run, res, notices, o, b, mid, after, sources, vault)
    ensures run.moved.Some? <==> MovesOut(o, Relinked(o, b, sources, vault), vault)
    ensures run.copied.Some? <==> NeedsCopyToLocal(o, Relinked(o, b, sources, vault))
    ensures run.saved.Some? <==> MemoryOnly(Relinked(o, b, sources, vault))
    ensures run.moved.Some? ==> run.copied.None? && run.saved.None?
    ensures run.copied.Some? ==> run.saved.None?
    ensures run.linked.Some? && o.src == b.src ==> run.moved.None? && run.copied.None?
  {
    var r := Relinked(o, b, sources, vault);
    if run.copied.Some? {
      assert !MovesOut(o, r, vault);
      assert !MemoryOnly(r);
    }
    if run.linked.Some? && o.src == b.src {
      RelinkedStaysPut(o, b, sources, vault);
    }
  }
}
