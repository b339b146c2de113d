/**
 * The sync engine (src/services/SyncEngine.ts): the module-level state (the
 * cache of recently handled watcher events, the per-image lock set and the
 * bounded sync log) as the fields of `Engine`, and the operations that keep a
 * record, its image file and its `.json`/`.txt` sidecars consistent.
 * The clock, identifiers from generateId and the outcome of waiting on a lock
 * are parameters.
 */
module SyncEngine {
  import opened Wrappers
  import opened Strings
  import opened Model
  import opened Store
  import Host
  import Utils
  import ImageService

  const EVENT_TTL_MS: int := 5000
  const MAX_LOG_ENTRIES: nat := 500

  datatype EventKind = Add | Change | Unlink

  /** A watcher event; `size` and `mtime` are absent when the caller does not pass them. */
  datatype FileEvent = FileEvent(kind: EventKind, path: string, size: Option<int>, mtime: Option<int>)

  /** A cached fingerprint of a handled event. */
  datatype Processed = Processed(path: string, size: int, mtime: int, processedAt: int)

  datatype Verdict = Ok | Failed | Skipped

  datatype LogEntry = LogEntry(ts: int, op: string, id: Option<string>, path: Option<string>,
                               result: Verdict, reason: Option<string>)

  /** `{ success, id, src?, error? }` */
  datatype SyncResult = SyncResult(success: bool, id: string, src: Option<string>, error: Option<string>)

  // ---------------------------------------------------------------- event fingerprints

  /** The decision of shouldSkipEvent (SyncEngine.ts:61-79) against the cache. */
  predicate Skips(processed: map<string, Processed>, e: FileEvent, now: int)
  {
    var key := ToLower(e.path);
    key in processed && now - processed[key].processedAt <= EVENT_TTL_MS &&
    e.size == Some(processed[key].size) && e.mtime == Some(processed[key].mtime)
  }

  /** The cache entry markEventProcessed stores (SyncEngine.ts:81-89): a missing size or mtime is stored as 0. */
  function Fingerprint(e: FileEvent, now: int): (p: Processed)
    ensures p.processedAt == now && p.path == e.path
    ensures p.size == e.size.GetOr(0) && p.mtime == e.mtime.GetOr(0)
  {
    Processed(e.path, e.size.GetOr(0), e.mtime.GetOr(0), now)
  }

  /** An event marked and seen again within the TTL with the same size and mtime is skipped. */
  lemma MarkedThenSkipped(processed: map<string, Processed>, e: FileEvent, t: int, now: int)
    requires e.size.Some? && e.mtime.Some? && t <= now <= t + EVENT_TTL_MS
    ensures Skips(processed[ToLower(e.path) := Fingerprint(e, t)], e, now)
  {
  }

  /** An event without a size or an mtime is never skipped, whatever the cache holds. */
  lemma UndefinedNeverSkipped(processed: map<string, Processed>, e: FileEvent, now: int)
    requires e.size.None? || e.mtime.None?
    ensures !Skips(processed, e, now)
  {
  }

  /** The cache after the periodic sweep (SyncEngine.ts:92-99): expired entries are dropped. */
  function Swept(processed: map<string, Processed>, now: int): (r: map<string, Processed>)
    ensures forall k :: k in r <==> k in processed && now - processed[k].processedAt <= EVENT_TTL_MS
    ensures forall k :: k in r ==> r[k] == processed[k]
  {
    map k | k in processed && now - processed[k].processedAt <= EVENT_TTL_MS :: processed[k]
  }

  // ---------------------------------------------------------------- sync log

  /** The log after `log(entry)` (SyncEngine.ts:139-146): appended, and the oldest dropped past 500. */
  function Pushed(l: seq<LogEntry>, e: LogEntry): (r: seq<LogEntry>)
    ensures |l| < MAX_LOG_ENTRIES ==> r == l + [e]
    ensures |l| <= MAX_LOG_ENTRIES ==> |r| <= MAX_LOG_ENTRIES
    ensures 0 < |r| <= |l| + 1 && r[|r| - 1] == e
    ensures r == (l + [e])[|l| + 1 - |r|..]
  {
    var full := l + [e];
    if |full| > MAX_LOG_ENTRIES then full[1..] else full
  }

  /** A full log stays full: every push drops exactly the oldest entry. */
  lemma PushedFull(l: seq<LogEntry>, e: LogEntry)
    requires |l| == MAX_LOG_ENTRIES
    ensures Pushed(l, e) == l[1..] + [e]
  {
  }

  // ---------------------------------------------------------------- sidecars

  const SIDECAR_FIELDS: set<Field> := {Id, Title, Prompt, NegativePrompt, ModelName, Sampler, CfgScale, Steps, Seed, Tags, Rating}

  /**
   * The object writeSidecar serialises (SyncEngine.ts:732-744): the given id and
   * the record's title, prompt, negativePrompt, model, sampler, cfgScale, steps,
   * seed, tags and rating, the undefined ones dropped by JSON.stringify.
   */
  function SidecarObject(id: string, data: ImageRecord): (obj: Patch)
  {
    map f | f in SIDECAR_FIELDS && !SidecarEntry(id, data, f).Undefined? :: SidecarEntry(id, data, f)
  }

  /** The value a sidecar field takes: the given id, else the record's own. */
  function SidecarEntry(id: string, data: ImageRecord, f: Field): Value
  {
    if f == Id then Str(id) else Get(data, f)
  }

  /**
   * The sidecar holds exactly the whitelisted properties that are defined, the
   * given id in place of the record's: never src, blob, hash, sourceId or date.
   */
  lemma SidecarObjectKeys(id: string, data: ImageRecord)
    ensures var obj := SidecarObject(id, data);
      && (forall f :: f in obj ==> f in SIDECAR_FIELDS)
      && (NegativePrompt in obj <==> data.negativePrompt.Some?)
      && (Rating in obj <==> data.rating.Some?)
      && (forall f :: f in SIDECAR_FIELDS && f != NegativePrompt && f != Rating ==> f in obj)
      && Id in obj && obj[Id] == Str(id)
      && (forall f :: f in obj && f != Id ==> obj[f] == Get(data, f))
  {
    SidecarObjectDomain(id, data);
    SidecarObjectValues(id, data);
  }

  lemma SidecarObjectDomain(id: string, data: ImageRecord)
    ensures var obj := SidecarObject(id, data);
      && (forall f :: f in obj ==> f in SIDECAR_FIELDS)
      && (NegativePrompt in obj <==> data.negativePrompt.Some?)
      && (Rating in obj <==> data.rating.Some?)
      && (forall f :: f in SIDECAR_FIELDS && f != NegativePrompt && f != Rating ==> f in obj)
  {
    SidecarMembership(id, data);
    SidecarOptional(data);
    SidecarRequired(id, data);
  }

  lemma SidecarObjectValues(id: string, data: ImageRecord)
    ensures var obj := SidecarObject(id, data);
      Id in obj && obj[Id] == Str(id) && forall f :: f in obj && f != Id ==> obj[f] == Get(data, f)
  {
    SidecarMembership(id, data);
    assert Id in SIDECAR_FIELDS;
  }

  lemma SidecarMembership(id: string, data: ImageRecord)
    ensures var obj := SidecarObject(id, data);
      forall f :: f in obj <==> f in SIDECAR_FIELDS && !SidecarEntry(id, data, f).Undefined?
  {
  }

  lemma SidecarOptional(data: ImageRecord)
    ensures Get(data, NegativePrompt).Undefined? <==> data.negativePrompt.None?
    ensures Get(data, Rating).Undefined? <==> data.rating.None?
  {
  }

  lemma SidecarRequired(id: string, data: ImageRecord)
    ensures forall f :: f in SIDECAR_FIELDS && f != NegativePrompt && f != Rating ==> !SidecarEntry(id, data, f).Undefined?
  {
  }

  /**
   * The sidecar a watcher reads back (handleSidecarChange without id and src)
   * restores the record it was written from: nothing changes.
   */
  lemma SidecarRoundTrip(r: ImageRecord)
    ensures Updated(r, Without(SidecarObject(r.id, r), {Id, Src})) == r
  {
    SidecarObjectKeys(r.id, r);
    var changes := Without(SidecarObject(r.id, r), {Id, Src});
    ApplySame(r, changes);
  }

  /** The path writeSidecar puts the sidecars beside, without its extension (SyncEngine.ts:719-729). */
  function SidecarBase(src: string): Result<string>
  {
    if StartsWith(src, FILE_SCHEME) then
      var p := Host.GetFsPath(src);
      if p.Failure? || p.value == "" then Failure("no path") else Success(Host.StripExt(p.value))
    else Success(Host.StripExt(src))
  }

  lemma SidecarNamesDiffer(b: string, now: int)
    ensures b + ".json" != b + ".txt"
    ensures b + ".json" != Host.MainProcess.TempPath(b + ".txt", now)
    ensures b + ".txt" != Host.MainProcess.TempPath(b + ".json", now)
  {
    assert (b + ".json")[|b| + 1] == 'j' && (b + ".txt")[|b| + 1] == 't';
    var t := Host.MainProcess.TempPath(b + ".txt", now);
    assert t[..|b| + 4] == b + ".txt";
    var u := Host.MainProcess.TempPath(b + ".json", now);
    assert u[..|b| + 5] == b + ".json";
    assert t[|b| + 1] == 't' && u[|b| + 1] == 'j';
  }

  /** The paths writeSidecar may touch: the two sidecars and their temporary files. */
  function SidecarWrites(b: string, now: int): set<string>
  {
    {b + ".json", Host.MainProcess.TempPath(b + ".json", now), b + ".txt", Host.MainProcess.TempPath(b + ".txt", now)}
  }

  /** A path ending in 'g' or 'p' (an image or `.tmp` file) is none of them. */
  lemma NotSidecarWrite(q: string, b: string, now: int)
    requires q != "" && (q[|q| - 1] == 'g' || q[|q| - 1] == 'p')
    ensures q !in SidecarWrites(b, now)
  {
    var n := if now < 0 then -now else now;
    var digits := NatToString(n);
    assert IsDigit(digits[|digits| - 1]);
    forall p | p in SidecarWrites(b, now) ensures p != "" && p[|p| - 1] != 'g' && p[|p| - 1] != 'p' {
      if p == Host.MainProcess.TempPath(b + ".json", now) || p == Host.MainProcess.TempPath(b + ".txt", now) {
        assert p[|p| - 1] == digits[|digits| - 1];
      }
    }
  }

  /** One write-file call, as far as the sidecar writes need it. */
  method WriteOne(host: Host.MainProcess, path: string, content: Host.Content, now: int)
    modifies host`files, host`dirs, host`allowedPaths, host`ignoredPaths, host`timers
    ensures old(host.allowedPaths) <= host.allowedPaths
    ensures old(host.IsPathAllowed(Host.Dirname(path))) && path !in host.faulty ==> path in host.files && host.files[path] == content
    ensures forall q :: q != path && q != Host.MainProcess.TempPath(path, now) ==>
      (q in host.files <==> q in old(host.files)) && (q in host.files ==> host.files[q] == old(host.files)[q])
  {
    var _ := host.WriteFile(path, content, now);
  }

  /**
   * writeSidecar (SyncEngine.ts:712-755): the JSON sidecar, and the `.txt` one
   * only when the prompt is non-empty. A src that does not resolve writes nothing.
   */
  method WriteSidecar(host: Host.MainProcess, id: string, src: string, data: ImageRecord, now: int)
    modifies host`files, host`dirs, host`allowedPaths, host`ignoredPaths, host`timers
    ensures SidecarBase(src).Failure? ==> host.files == old(host.files)
    ensures var b := SidecarBase(src);
      b.Success? && old(host.IsPathAllowed(Host.Dirname(b.value + ".json"))) && b.value + ".json" !in host.faulty ==>
        b.value + ".json" in host.files && host.files[b.value + ".json"] == Host.Json(SidecarObject(id, data))
    ensures var b := SidecarBase(src);
      b.Success? && data.prompt != "" && old(host.IsPathAllowed(Host.Dirname(b.value + ".txt"))) && b.value + ".txt" !in host.faulty ==>
        b.value + ".txt" in host.files && host.files[b.value + ".txt"] == Host.Text(data.prompt)
    ensures old(host.allowedPaths) <= host.allowedPaths
    ensures var b := SidecarBase(src);
      b.Success? ==> forall q :: q !in SidecarWrites(b.value, now) ==>
        (q in host.files <==> q in old(host.files)) && (q in host.files ==> host.files[q] == old(host.files)[q])
    ensures var b := SidecarBase(src);
      b.Success? && data.prompt == "" ==>
        (b.value + ".txt" in host.files <==> b.value + ".txt" in old(host.files)) &&
        (b.value + ".txt" in host.files ==> host.files[b.value + ".txt"] == old(host.files)[b.value + ".txt"])
  {
    var b := SidecarBase(src);
    if b.Failure? {
      return;
    }
    var basePath := b.value;
    SidecarNamesDiffer(basePath, now);
    WriteOne(host, basePath + ".json", Host.Json(SidecarObject(id, data)), now);
    if data.prompt != "" {
      WriteOne(host, basePath + ".txt", Host.Text(data.prompt), now);
    }
  }

  // ---------------------------------------------------------------- rename and delete on disk

  /** `s.split(c).pop()`: the text after the last `c`, or all of `s`. */
  function LastPiece(s: string, c: char): string
  {
    var parts := Split(s, c);
    parts[|parts| - 1]
  }

  /** The path renameImageFile moves a file to (SyncEngine.ts:681-685): its folder, the sanitised title, its extension. */
  function RenameTarget(currentPath: string, newTitle: string): string
  {
    Before(currentPath, LastIndexOf(currentPath, '/')) + "/" + NewFilename(currentPath, newTitle)
  }

  /** `sanitizeFilename(newTitle) + '.' + ext` */
  function NewFilename(currentPath: string, newTitle: string): string
  {
    Utils.SanitizeFilename(newTitle) + ("." + LastPiece(currentPath, '.'))
  }

  predicate NoSlash(s: string) { forall j :: 0 <= j < |s| ==> s[j] != '/' }

  lemma NoSlashAppend(a: string, b: string)
    requires NoSlash(a) && NoSlash(b)
    ensures NoSlash(a + b)
  {
    forall j | 0 <= j < |a + b| ensures (a + b)[j] != '/' {
      if j >= |a| {
        assert (a + b)[j] == b[j - |a|];
      }
    }
  }

  /** The new file name has no '/' when the extension has none. */
  lemma NewFilenameNoSlash(p: string, title: string)
    requires NoSlash(LastPiece(p, '.'))
    ensures NoSlash(NewFilename(p, title))
  {
    var name := Utils.SanitizeFilename(title);
    assert NoSlash(name) by {
      forall j | 0 <= j < |name| ensures name[j] != '/' {
        assert Utils.FilenameChar(name[j]);
      }
    }
    NoSlashAppend(".", LastPiece(p, '.'));
    NoSlashAppend(name, "." + LastPiece(p, '.'));
  }

  /** The last '/' of `d + "/" + tail` is the one added when `tail` has none. */
  lemma LastSlashOfJoin(d: string, tail: string)
    requires NoSlash(tail)
    ensures LastIndexOf(d + "/" + tail, '/') == |d|
  {
    var u := d + "/";
    var t := u + tail;
    assert |u| == |d| + 1 && u[|d|] == '/';
    assert t[|d|] == '/';
    forall j | |u| <= j < |t| ensures t[j] != '/' {
      assert t[j] == tail[j - |u|];
    }
    LastIndexOfIs(t, '/', |d|);
  }

  lemma LastIndexOfIs(s: string, c: char, i: int)
    requires 0 <= i < |s| && s[i] == c
    requires forall j :: i < j < |s| ==> s[j] != c
    ensures LastIndexOf(s, c) == i
  {
    var r := LastIndexOf(s, c);
    assert r >= i by {
      assert s[i] == c;
    }
  }

  /** A renamed file stays in its folder and keeps its extension. */
  lemma RenameStaysInFolder(p: string, title: string)
    requires LastIndexOf(p, '/') >= 0
    requires NoSlash(LastPiece(p, '.'))
    ensures Host.Dirname(RenameTarget(p, title)) == Host.Dirname(p)
    ensures EndsWith(RenameTarget(p, title), "." + LastPiece(p, '.'))
  {
    RenameKeepsFolder(p, title);
    RenameKeepsExtension(p, title);
  }

  lemma RenameKeepsFolder(p: string, title: string)
    requires LastIndexOf(p, '/') >= 0
    requires NoSlash(LastPiece(p, '.'))
    ensures Host.Dirname(RenameTarget(p, title)) == Host.Dirname(p)
  {
    var k := LastIndexOf(p, '/');
    var d, tail := Before(p, k), NewFilename(p, title);
    assert d == p[..k];
    assert RenameTarget(p, title) == d + "/" + tail;
    NewFilenameNoSlash(p, title);
    LastSlashOfJoin(d, tail);
    assert (d + "/" + tail)[..k] == d;
  }

  lemma RenameKeepsExtension(p: string, title: string)
    requires LastIndexOf(p, '/') >= 0
    ensures EndsWith(RenameTarget(p, title), "." + LastPiece(p, '.'))
  {
    var u := Before(p, LastIndexOf(p, '/')) + "/";
    var name, ext := Utils.SanitizeFilename(title), "." + LastPiece(p, '.');
    assert RenameTarget(p, title) == u + (name + ext);
    ConcatAssoc(u, name, ext);
    EndsWithAppend(u + name, ext);
  }

  lemma ConcatAssoc(a: string, b: string, c: string)
    ensures a + (b + c) == (a + b) + c
  {
  }

  /** What renameImageFile resolves to: `{ success, newSrc? }`. */
  datatype RenameOutcome = RenameOutcome(success: bool, newSrc: Option<string>)

  /** `currentPath.substring(0, currentPath.lastIndexOf('.'))`: the old sidecars' common stem. */
  function OldBase(currentPath: string): string
  {
    Before(currentPath, LastIndexOf(currentPath, '.'))
  }

  /**
   * The disk after renameImageFile's two trash-file calls on the old sidecars;
   * each call is a no-op when its folder is not allowed.
   */
  function OldSidecarsTrashed(files: map<string, Host.Content>, oldBase: string, jsonAllowed: bool, txtAllowed: bool)
    : map<string, Host.Content>
  {
    var f := if jsonAllowed then Host.MainProcess.Trashed(files, oldBase + ".json") else files;
    if txtAllowed then Host.MainProcess.Trashed(f, oldBase + ".txt") else f
  }

  /** rename-file's authorization of both folders. */
  predicate RenameAllowed(host: Host.MainProcess, currentPath: string, newPath: string)
    reads host`allowedPaths
  {
    host.IsPathAllowed(Host.Dirname(currentPath)) && host.IsPathAllowed(Host.Dirname(newPath))
  }

  /** trash-file's authorization of an old sidecar's folder. */
  predicate OldSidecarAllowed(host: Host.MainProcess, currentPath: string, ext: string)
    reads host`allowedPaths
  {
    host.IsPathAllowed(Host.Dirname(OldBase(currentPath) + ext))
  }

  /** The new src renameImageFile reports for the path the file ended up at. */
  function MovedSrc(target: string): string
  {
    FILE_SCHEME + ReplaceChar(target, '\\', '/')
  }

  /**
   * renameImageFile (SyncEngine.ts:669-710): the image file is renamed after the
   * new title in its folder; a name that differs only in letter case is kept.
   * `target` is the path the file was moved to.
   */
  method RenameImageFile(host: Host.MainProcess, currentSrc: string, newTitle: string, now: int)
    returns (r: RenameOutcome, ghost target: string)
    modifies host`files, host`dirs, host`ignoredPaths, host`timers
    ensures var p := Host.GetFsPath(currentSrc);
      p.Failure? || p.value == "" ==> r == RenameOutcome(false, None) && host.files == old(host.files)
    ensures var p := Host.GetFsPath(currentSrc);
      p.Success? && p.value != "" && ToLower(p.value) == ToLower(RenameTarget(p.value, newTitle)) ==>
        r == RenameOutcome(true, Some(currentSrc)) && host.files == old(host.files)
    ensures var p := Host.GetFsPath(currentSrc);
      p.Success? && p.value != "" && ToLower(p.value) != ToLower(RenameTarget(p.value, newTitle)) ==>
        var np := RenameTarget(p.value, newTitle);
        Moved(old(host.files), old(host.dirs), host.files, host.faulty, p.value, np, r, target,
              RenameAllowed(host, p.value, np),
              OldSidecarAllowed(host, p.value, ".json"), OldSidecarAllowed(host, p.value, ".txt"))
    ensures r.success ==> r.newSrc.Some? && (r.newSrc.value == currentSrc || StartsWith(r.newSrc.value, FILE_SCHEME))
    ensures !r.success ==> r.newSrc.None?
  {
    target := "";
    var pathResult := Host.GetFsPath(currentSrc);
    if pathResult.Failure? || pathResult.value == "" {
      return RenameOutcome(false, None), target;
    }
    var currentPath := pathResult.value;
    var newPath := RenameTarget(currentPath, newTitle);
    if ToLower(currentPath) == ToLower(newPath) {
      return RenameOutcome(true, Some(currentSrc)), target;
    }
    r, target := MoveImageFile(host, currentPath, newPath, now);
  }

  /**
   * What the rename of `currentPath` onto `newPath` did: an unauthorized folder
   * moves nothing; a success reports the `file://` url of `target`, which is
   * `newPath` unless that was taken and is otherwise a free path, renames the
   * file and its sidecars there and trashes whatever old sidecars remain; with
   * no faulty path and both folders allowed it succeeds.
   */
  ghost predicate Moved(files: map<string, Host.Content>, dirs: set<string>, after: map<string, Host.Content>,
                        faulty: set<string>, currentPath: string, newPath: string, r: RenameOutcome, target: string,
                        allowed: bool, jsonAllowed: bool, txtAllowed: bool)
  {
    (!allowed ==> r == RenameOutcome(false, None) && after == files) &&
    (allowed && faulty == {} ==> r.success) &&
    (!r.success ==> r.newSrc.None?) &&
    (r.success ==>
      r.newSrc == Some(MovedSrc(target)) && target != "" &&
      (if newPath in files || newPath in dirs then target !in files && target !in dirs else target == newPath) &&
      (forall e :: Host.ExtSuffix(newPath, e) ==> Host.ExtSuffix(target, e)) &&
      after == OldSidecarsTrashed(Host.Renamed(files, currentPath, target), OldBase(currentPath), jsonAllowed, txtAllowed))
  }

  /**
   * The rename on disk and the trashing of the old sidecars (SyncEngine.ts:691-706),
   * reached once renameImageFile has a non-empty path and a name that differs
   * in more than letter case.
   */
  method MoveImageFile(host: Host.MainProcess, currentPath: string, newPath: string, now: int)
    returns (r: RenameOutcome, ghost target: string)
    requires currentPath != "" && newPath != "" && ToLower(currentPath) != ToLower(newPath)
    modifies host`files, host`dirs, host`ignoredPaths, host`timers
    ensures Moved(old(host.files), old(host.dirs), host.files, host.faulty, currentPath, newPath, r, target,
                  RenameAllowed(host, currentPath, newPath),
                  OldSidecarAllowed(host, currentPath, ".json"), OldSidecarAllowed(host, currentPath, ".txt"))
  {
    target := "";
    var result := host.RenameFile(currentPath, newPath, now);
    if result.Failure? {
      return RenameOutcome(false, None), target;
    }
    target := result.value;
    ghost var renamed := host.files;
    assert renamed == Host.Renamed(old(host.files), currentPath, target);
    var oldBase := Before(currentPath, LastIndexOf(currentPath, '.'));
    ghost var jsonAllowed := host.IsPathAllowed(Host.Dirname(oldBase + ".json"));
    ghost var txtAllowed := host.IsPathAllowed(Host.Dirname(oldBase + ".txt"));
    var _ := host.TrashFile(oldBase + ".json");
    ghost var once := host.files;
    assert once == if jsonAllowed then Host.MainProcess.Trashed(renamed, oldBase + ".json") else renamed;
    var _ := host.TrashFile(oldBase + ".txt");
    assert host.files == if txtAllowed then Host.MainProcess.Trashed(once, oldBase + ".txt") else once;
    assert host.files == OldSidecarsTrashed(renamed, oldBase, jsonAllowed, txtAllowed);
    var finalPath := if result.value != "" then result.value else newPath;
    r := RenameOutcome(true, Some(FILE_SCHEME + ReplaceChar(finalPath, '\\', '/')));
  }

  /** What deleteFileFromDisk resolves to: `{ success, backupPath?, backupBase?, skipped? }`. */
  datatype DeleteOutcome = DeleteOutcome(success: bool, backupPath: Option<string>, backupBase: Option<string>, skipped: bool)

  /** `safeVaultPath && safeFilePath.includes(safeVaultPath)` (SyncEngine.ts:624-628) */
  predicate InVault(p: string, vault: string)
  {
    var safeVault := ToLower(Utils.NormalizePath(vault, false));
    safeVault != "" && Contains(ToLower(Utils.NormalizePath(p, false)), safeVault)
  }

  /** The file is deleted when forced, when it lies in the vault, or when linked files may go too. */
  predicate ShouldDelete(p: string, vault: string, deleteLinked: bool, force: bool)
  {
    force || InVault(p, vault) || deleteLinked
  }

  /** `filePath.substring(0, filePath.lastIndexOf('.'))` (SyncEngine.ts:647) */
  function TrashBase(p: string): string
  {
    Before(p, LastIndexOf(p, '.'))
  }

  /** The files after backup-file of `p` succeeded with the paths `backup`. */
  function BackedUp(files: map<string, Host.Content>, p: string, backup: (string, string)): map<string, Host.Content>
    requires p in files
  {
    Host.CopySidecars(files[backup.0 := files[p]], Host.StripExt(p), backup.1, Host.SIDECAR_EXTS)
  }

  /**
   * deleteFileFromDisk (SyncEngine.ts:610-661): a file of a linked folder stays
   * unless forced or allowed; otherwise it is backed up, then trashed with its
   * `.txt` and `.json` sidecars.
   */
  method DeleteFileFromDisk(host: Host.MainProcess, hasApi: bool, src: string, localVaultPath: string,
                            deleteLinked: bool, force: bool, now: int) returns (r: DeleteOutcome)
    modifies host`files, host`dirs
    ensures !hasApi || !StartsWith(src, FILE_SCHEME) ==>
      r == DeleteOutcome(false, None, None, true) && host.files == old(host.files)
    ensures var p := Host.GetFsPath(src);
      p.Failure? || p.value == "" ==> r == DeleteOutcome(false, None, None, true) && host.files == old(host.files)
    ensures var p := Host.GetFsPath(src);
      hasApi && StartsWith(src, FILE_SCHEME) && p.Success? && p.value != "" && !ShouldDelete(p.value, localVaultPath, deleteLinked, force) ==>
        r == DeleteOutcome(true, None, None, true) && host.files == old(host.files)
    ensures var p := Host.GetFsPath(src);
      hasApi && StartsWith(src, FILE_SCHEME) && p.Success? && p.value != "" && ShouldDelete(p.value, localVaultPath, deleteLinked, force) ==>
        r.success && !r.skipped &&
        (r.backupPath.Some? <==> r.backupBase.Some?) &&
        (r.backupPath.Some? <==>
          old(host.IsPathAllowed(Host.Dirname(p.value))) && p.value in old(host.files) && host.BackupPaths(p.value, now).0 !in host.faulty) &&
        (r.backupPath.Some? ==> (r.backupPath.value, r.backupBase.value) == host.BackupPaths(p.value, now)) &&
        (r.backupPath.None? ==> Host.OnlyRemoved(old(host.files), host.files, Host.CleanupSet(p.value, TrashBase(p.value)))) &&
        (r.backupPath.Some? ==>
          p.value in old(host.files) &&
          Host.OnlyRemoved(BackedUp(old(host.files), p.value, host.BackupPaths(p.value, now)), host.files,
                           Host.CleanupSet(p.value, TrashBase(p.value)))) &&
        (r.backupPath.Some? && Host.Extname(p.value) !in Host.SIDECAR_EXTS ==>
          r.backupPath.value in host.files && host.files[r.backupPath.value] == old(host.files)[p.value]) &&
        (old(host.IsPathAllowed(Host.Dirname(p.value))) ==> p.value !in host.files)
  {
    if !hasApi || src == "" || !StartsWith(src, FILE_SCHEME) {
      return DeleteOutcome(false, None, None, true);
    }
    var pRes := Host.GetFsPath(src);
    if pRes.Failure? || pRes.value == "" {
      return DeleteOutcome(false, None, None, true);
    }
    var p := pRes.value;
    if !ShouldDelete(p, localVaultPath, deleteLinked, force) {
      return DeleteOutcome(true, None, None, true);
    }
    var backup := BackupAndTrash(host, p, now);
    r := DeleteOutcome(true, None, None, false);
    if backup.Some? {
      r := r.(backupPath := Some(backup.value.0), backupBase := Some(backup.value.1));
    }
  }

  /** The backup-file call and the three trash-file calls of SyncEngine.ts:640-654. */
  method BackupAndTrash(host: Host.MainProcess, p: string, now: int) returns (backup: Option<(string, string)>)
    modifies host`files, host`dirs
    ensures backup.Some? <==> old(host.IsPathAllowed(Host.Dirname(p))) && p in old(host.files) && host.BackupPaths(p, now).0 !in host.faulty
    ensures backup.Some? ==> backup.value == host.BackupPaths(p, now)
    ensures backup.None? ==> Host.OnlyRemoved(old(host.files), host.files, Host.CleanupSet(p, TrashBase(p)))
    ensures backup.Some? ==>
      p in old(host.files) &&
      Host.OnlyRemoved(BackedUp(old(host.files), p, backup.value), host.files, Host.CleanupSet(p, TrashBase(p)))
    ensures backup.Some? && Host.Extname(p) !in Host.SIDECAR_EXTS ==>
      backup.value.0 in host.files && host.files[backup.value.0] == old(host.files)[p]
    ensures old(host.IsPathAllowed(Host.Dirname(p))) ==> p !in host.files
  {
    ghost var before := host.files;
    var backupRes := host.BackupFile(p, now);
    backup := if backupRes.Success? then Some(backupRes.value) else None;
    ghost var saved := host.files;
    TrashWithSidecars(host, p);
    if backup.Some? && Host.Extname(p) !in Host.SIDECAR_EXTS {
      host.BackupKeepsContent(before, p, now, before[p]);
      host.BackupNotCleanedUp(p, now, TrashBase(p));
    }
  }

  /** The three trash-file calls of SyncEngine.ts:648-654: the file and its sidecars go, and nothing else. */
  method TrashWithSidecars(host: Host.MainProcess, p: string)
    modifies host`files, host`dirs
    ensures Host.OnlyRemoved(old(host.files), host.files, Host.CleanupSet(p, TrashBase(p)))
    ensures host.IsPathAllowed(Host.Dirname(p)) ==>
      p !in host.files && Host.StripExt(p) + ".json" !in host.files && Host.StripExt(p) + ".txt" !in host.files
    ensures host.IsPathAllowed(Host.Dirname(TrashBase(p) + ".txt")) ==> TrashBase(p) + ".txt" !in host.files
    ensures host.IsPathAllowed(Host.Dirname(TrashBase(p) + ".json")) ==> TrashBase(p) + ".json" !in host.files
  {
    var basePath := TrashBase(p);
    Host.StripSidecar(basePath, ".json");
    Host.StripSidecar(basePath, ".txt");
    var _ := host.TrashFile(p);
    var _ := host.TrashFile(basePath + ".txt");
    var _ := host.TrashFile(basePath + ".json");
  }

  // ---------------------------------------------------------------- applyPatch

  /**
   * `patch.title && patch.title !== dbItem.title && dbItem.src?.startsWith('file://')`
   * for a string title (any other title makes sanitizeFilename throw inside
   * renameImageFile, which then reports failure).
   */
  predicate RenameWanted(item: ImageRecord, patch: Patch)
  {
    Title in patch && patch[Title].Str? && patch[Title].s != "" && patch[Title].s != item.title && IsFileUrl(item.src)
  }

  /** `merged.src || dbItem.src` */
  function FinalSrc(merged: Patch, item: ImageRecord): (r: Option<string>)
    ensures TruthyAt(merged, Src) && merged[Src].Str? ==> r == Some(merged[Src].s)
    ensures !TruthyAt(merged, Src) ==> r == item.src
  {
    if Src in merged && merged[Src].Str? && merged[Src].s != "" then Some(merged[Src].s) else item.src
  }

  /** `dbItem.src?.startsWith('file://') || merged.src?.startsWith('file://')` */
  predicate SidecarWanted(merged: Patch, item: ImageRecord)
  {
    IsFileUrl(item.src) || (Src in merged && merged[Src].Str? && StartsWith(merged[Src].s, FILE_SCHEME))
  }

  /**
   * The patch applyPatch writes: the given one, or, after the title change
   * renamed the file, the same with the renamed file's `file://` src.
   */
  predicate MergedPatch(item: ImageRecord, patch: Patch, merged: Patch)
  {
    merged == patch ||
    (RenameWanted(item, patch) && Src in merged && merged == patch[Src := merged[Src]] &&
     merged[Src].Str? && StartsWith(merged[Src].s, FILE_SCHEME))
  }

  /**
   * The store after applyPatch's critical section and what it resolves to: a
   * missing record is reported; otherwise the merged patch is written and the
   * result carries `merged.src || dbItem.src`.
   */
  predicate Patched(before: map<string, ImageRecord>, after: map<string, ImageRecord>, id: string, patch: Patch,
                    merged: Patch, res: SyncResult)
  {
    if id !in before then
      after == before && res == SyncResult(false, id, None, Some("Image not found"))
    else
      MergedPatch(before[id], patch, merged) && after == before[id := Updated(before[id], merged)] &&
      res == SyncResult(true, id, FinalSrc(merged, before[id]), None)
  }

  /**
   * Whatever the rename does, the record ends up as the patch says, except that
   * a renamed file's record points at the file's new `file://` location.
   */
  lemma MergedRecord(item: ImageRecord, patch: Patch, merged: Patch)
    requires MergedPatch(item, patch, merged)
    ensures Updated(item, merged) == Updated(item, patch) ||
      (RenameWanted(item, patch) && IsFileUrl(Updated(item, merged).src) &&
       Updated(item, merged) == Updated(item, patch).(src := Updated(item, merged).src))
  {
    if merged != patch {
      RenamedPatch(item, patch, merged[Src].s);
    }
  }

  /**
   * The JSON sidecar applyPatch leaves behind for the merged patch: its path
   * next to the record's file, the renamed one after a rename, and the patched
   * record's properties.
   */
  function PatchSidecar(id: string, item: ImageRecord, merged: Patch): Option<(string, Host.Content)>
  {
    if !SidecarWanted(merged, item) then None
    else
      var src := FinalSrc(merged, item);
      if src.None? then None
      else
        var b := SidecarBase(src.value);
        if b.Failure? then None else Some((b.value + ".json", Host.Json(SidecarObject(id, Updated(item, merged)))))
  }

  /** The entry applyPatch logs once the record was looked up. */
  function PatchEntry(found: bool, id: string, now: int): LogEntry
  {
    if found then LogEntry(now, "patch", Some(id), None, Ok, None)
    else LogEntry(now, "patch", Some(id), None, Failed, Some("not_found"))
  }

  /** The patched record's new src is the renamed file's, and every other property follows the patch. */
  lemma RenamedPatch(item: ImageRecord, patch: Patch, ns: string)
    ensures Updated(item, patch[Src := Str(ns)]) == Updated(item, patch).(src := Some(ns))
  {
  }

  /** SyncEngine.ts:176-190: the patch as written, with the renamed file's src when the title renamed it. */
  method RenameForPatch(host: Host.MainProcess, item: ImageRecord, patch: Patch, now: int) returns (merged: Patch)
    modifies host`files, host`dirs, host`ignoredPaths, host`timers
    ensures MergedPatch(item, patch, merged)
    ensures !RenameWanted(item, patch) ==> merged == patch
  {
    merged := patch;
    if RenameWanted(item, patch) {
      var rename, _ := RenameImageFile(host, item.src.value, patch[Title].s, now);
      if rename.success && rename.newSrc.Some? && rename.newSrc.value != "" {
        merged := patch[Src := Str(rename.newSrc.value)];
      }
    }
  }

  /** SyncEngine.ts:196-199: the sidecar of the patched record, when the record lives in a file. */
  method SidecarForPatch(host: Host.MainProcess, id: string, item: ImageRecord, patch: Patch, merged: Patch, now: int)
    requires MergedPatch(item, patch, merged)
    modifies host`files, host`dirs, host`allowedPaths, host`ignoredPaths, host`timers
    ensures var w := PatchSidecar(id, item, merged);
      w.Some? && old(host.IsPathAllowed(Host.Dirname(w.value.0))) && w.value.0 !in host.faulty ==>
        w.value.0 in host.files && host.files[w.value.0] == w.value.1
  {
    var finalSrc := FinalSrc(merged, item);
    if SidecarWanted(merged, item) && finalSrc.Some? {
      WriteSidecar(host, id, finalSrc.value, Updated(item, merged), now);
    }
  }

  // ---------------------------------------------------------------- saveNewImage

  /** `forcedId || generateId()`; `freshId` is what generateId returned. */
  function SaveId(forcedId: Option<string>, freshId: string): string
  {
    if forcedId.Some? && forcedId.value != "" then forcedId.value else freshId
  }

  /** The bytes to save and their type: the blob when there is one, else the response to the data URL. */
  function Payload(blob: Option<Blob>, fetched: Option<Blob>): Option<Blob>
  {
    if blob.Some? then Some(blob.value.(mime := if blob.value.mime != "" then blob.value.mime else "image/png"))
    else if fetched.Some? then Some(fetched.value.(mime := if fetched.value.mime != "" then fetched.value.mime else "image/png"))
    else None
  }

  /** `mime.includes('jpeg') ? 'jpg' : mime.includes('webp') ? 'webp' : 'png'` */
  function ExtFor(mime: string): string
  {
    if Contains(mime, "jpeg") then "jpg" else if Contains(mime, "webp") then "webp" else "png"
  }

  /** `sanitizeFilename(imageData.title || id)` */
  function SafeTitle(title: string, id: string): string
  {
    Utils.SanitizeFilename(if title != "" then title else id)
  }

  /** `imageData.title || safeTitle` */
  function SavedTitle(title: string, id: string): string
  {
    if title != "" then title else SafeTitle(title, id)
  }

  /** The properties saveNewImage passes to createBaseImage. */
  function SavedOverrides(id: string, title: string, prompt: Option<string>, src: string, nowIso: string): Patch
  {
    map[Id := Str(id), Title := Str(SavedTitle(title, id)), Prompt := Str(if prompt.Some? then prompt.value else ""),
        Src := Str(src), SourceId := Str(INTERNAL), Date := Str(nowIso)]
  }

  /** The record saveNewImage creates when no stored record is reused. */
  function NewSaved(id: string, title: string, prompt: Option<string>, src: string, nowIso: string): ImageRecord
  {
    ImageService.CreateBaseImage(SavedOverrides(id, title, prompt, src, nowIso), id, nowIso)
  }

  /** The update saveNewImage makes to the stored record of a forced id. */
  function Repointed(src: string): Patch
  {
    map[Src := Str(src), SourceId := Str(INTERNAL), BlobData := Undefined]
  }

  /** The store after a successful save. */
  predicate Saved(before: map<string, ImageRecord>, after: map<string, ImageRecord>, id: string, forced: bool,
                  title: string, prompt: Option<string>, src: string, nowIso: string)
  {
    if forced && id in before then after == before[id := Updated(before[id], Repointed(src))]
    else id !in before && after == before[id := NewSaved(id, title, prompt, src, nowIso)]
  }

  /** The record a save creates is internal, lives at the saved file, and keeps the given title (or the sanitised id) and prompt. */
  lemma NewSavedRecord(id: string, title: string, prompt: Option<string>, src: string, nowIso: string)
    ensures var r := NewSaved(id, title, prompt, src, nowIso);
      r.id == id && r.src == Some(src) && r.sourceId == INTERNAL && r.date == nowIso &&
      r.title == SavedTitle(title, id) && r.prompt == (if prompt.Some? then prompt.value else "") &&
      r.blob.None? && r.hash.None? && r.tags == [] && r.steps == 20
  {
    var o := SavedOverrides(id, title, prompt, src, nowIso);
    assert o[Id] == Str(id) && o[Src] == Str(src) && o[SourceId] == Str(INTERNAL) && o[Date] == Str(nowIso);
    assert o[Title] == Str(SavedTitle(title, id)) && o[Prompt] == Str(if prompt.Some? then prompt.value else "");
    assert BlobData !in o && Hash !in o && Tags !in o && Steps !in o;
    ImageService.CreateBaseGet(o, id, nowIso, Id);
    ImageService.CreateBaseGet(o, id, nowIso, Src);
    ImageService.CreateBaseGet(o, id, nowIso, SourceId);
    ImageService.CreateBaseGet(o, id, nowIso, Date);
    ImageService.CreateBaseGet(o, id, nowIso, Title);
    ImageService.CreateBaseGet(o, id, nowIso, Prompt);
    ImageService.CreateBaseGet(o, id, nowIso, BlobData);
    ImageService.CreateBaseGet(o, id, nowIso, Hash);
    ImageService.CreateBaseGet(o, id, nowIso, Tags);
    ImageService.CreateBaseGet(o, id, nowIso, Steps);
  }

  /** Reusing a forced id points the stored record at the new internal file, drops its blob and keeps the rest. */
  lemma RepointedRecord(r: ImageRecord, src: string)
    ensures Updated(r, Repointed(src)) == r.(src := Some(src), sourceId := INTERNAL, blob := None)
  {
  }

  /**
   * The file half of saveNewImage (SyncEngine.ts:284-301): the bytes go to
   * `<dir>/<id>.tmp`, which is then renamed to a free name; a failed rename
   * trashes the temporary file. The result is the path the file ended at.
   */
  method StoreImageFile(host: Host.MainProcess, dir: string, id: string, filename: string, data: seq<int>, now: int)
    returns (r: Result<string>)
    modifies host`files, host`dirs, host`allowedPaths, host`ignoredPaths, host`timers
    ensures r.Failure? ==> r.error != ""
    ensures old(host.allowedPaths) <= host.allowedPaths
    ensures r.Success? && filename != "" ==> r.value in host.files && host.files[r.value] == Host.Binary(data)
    ensures r.Success? && filename != "" ==>
      EndsWith(r.value, ".tmp") || forall e :: Host.ExtSuffix(filename, e) ==> Host.ExtSuffix(r.value, e)
  {
    var tempPath := dir + "/" + id + ".tmp";
    var finalPath := host.GetUniquePathHandler(dir, filename);
    var w := host.WriteFile(tempPath, Host.Binary(data), now);
    if w.Failure? {
      return Failure(if w.error != "" then w.error else "Write failed");
    }
    assert tempPath in host.files && host.files[tempPath] == Host.Binary(data);
    ghost var before := host.files;
    var rn := host.RenameFile(tempPath, finalPath, now);
    if rn.Failure? {
      var _ := host.TrashFile(tempPath);
      return Failure(if rn.error != "" then rn.error else "Rename failed");
    }
    ghost var moved := rn.value;
    assert EndsWith(tempPath, ".tmp") by {
      EndsWithAppend(dir + "/" + id, ".tmp");
    }
    if moved != tempPath {
      TempNotSidecar(tempPath, moved);
      Host.RenamedMovesImage(before, tempPath, moved);
    }
    if filename != "" && ToLower(tempPath) != ToLower(finalPath) {
      forall e | Host.ExtSuffix(filename, e) ensures Host.ExtSuffix(moved, e) {
        Host.ExtKept(filename, finalPath, e);
        Host.ExtKept(finalPath, moved, e);
      }
    }
    r := Success(if rn.value != "" then rn.value else finalPath);
  }

  /** A `.tmp` file is not the `.json` or `.txt` sidecar of any path. */
  lemma TempNotSidecar(temp: string, target: string)
    requires EndsWith(temp, ".tmp")
    ensures forall e :: e in Host.SIDECAR_EXTS ==> temp != Host.StripExt(target) + e && temp != Host.StripExt(temp) + e
  {
    LastOfSuffix(temp, ".tmp");
    forall e | e in Host.SIDECAR_EXTS ensures temp != Host.StripExt(target) + e && temp != Host.StripExt(temp) + e {
      var a, b := Host.StripExt(target) + e, Host.StripExt(temp) + e;
      assert a[|a| - 1] == e[|e| - 1] && b[|b| - 1] == e[|e| - 1];
    }
  }

  /**
   * The disk half of saveNewImage (SyncEngine.ts:229-301): the vault folder is
   * created, the bytes are chosen and stored under the sanitised title. The
   * result is the path the image was saved at, or the error message.
   */
  method SaveFile(host: Host.MainProcess, title: string, blob: Option<Blob>, fetched: Option<Blob>, vaultPath: string,
                  id: string, now: int) returns (r: Result<string>)
    modifies host`files, host`dirs, host`allowedPaths, host`ignoredPaths, host`timers
    ensures old(host.allowedPaths) <= host.allowedPaths
    ensures vaultPath == "" ==> r == Failure("Vault path not configured") && host.files == old(host.files)
    ensures vaultPath != "" && Payload(blob, fetched).None? ==> r == Failure(NO_IMAGE_DATA) && host.files == old(host.files)
    ensures r.Success? ==>
      vaultPath != "" && Payload(blob, fetched).Some? &&
      r.value in host.files && host.files[r.value] == Host.Binary(Payload(blob, fetched).value.data) &&
      (EndsWith(r.value, ".tmp") || Host.ExtSuffix(r.value, "." + ExtFor(Payload(blob, fetched).value.mime)))
  {
    if vaultPath == "" {
      return Failure("Vault path not configured");
    }
    var importedDir := ReplaceChar(vaultPath, '\\', '/');
    var _ := host.Mkdir(importedDir);
    var payload := Payload(blob, fetched);
    if payload.None? {
      return Failure(NO_IMAGE_DATA);
    }
    r := StorePayload(host, importedDir, title, id, payload.value, now);
  }

  /** SyncEngine.ts:280-301: the bytes are stored under the sanitised title and the extension of their type. */
  method StorePayload(host: Host.MainProcess, dir: string, title: string, id: string, payload: Blob, now: int)
    returns (r: Result<string>)
    modifies host`files, host`dirs, host`allowedPaths, host`ignoredPaths, host`timers
    ensures old(host.allowedPaths) <= host.allowedPaths
    ensures r.Success? ==> r.value in host.files && host.files[r.value] == Host.Binary(payload.data)
    ensures r.Success? ==> EndsWith(r.value, ".tmp") || Host.ExtSuffix(r.value, "." + ExtFor(payload.mime))
  {
    var ext := ExtFor(payload.mime);
    var safeTitle := SafeTitle(title, id);
    assert Utils.FilenameChar(safeTitle[|safeTitle| - 1]);
    var filename := safeTitle + "." + ext;
    SavedNameHasExt(safeTitle, ext);
    assert filename != "";
    r := StoreImageFile(host, dir, id, filename, payload.data, now);
    if r.Success? && !EndsWith(r.value, ".tmp") {
      Host.ExtKept(filename, r.value, "." + ext);
    }
  }

  /** The saved name ends in the extension chosen from the type. */
  lemma SavedNameHasExt(safeTitle: string, ext: string)
    requires safeTitle != "" && safeTitle[|safeTitle| - 1] != Host.SEP
    requires ext == "jpg" || ext == "webp" || ext == "png"
    ensures Host.ExtSuffix(safeTitle + "." + ext, "." + ext)
  {
    var e := "." + ext;
    var name := safeTitle + e;
    assert safeTitle + "." + ext == name;
    assert name[|name| - |e| - 1] == safeTitle[|safeTitle| - 1];
    EndsWithAppend(safeTitle, e);
  }

  lemma LastOfSuffix(q: string, e: string)
    requires e != "" && EndsWith(q, e)
    ensures q != "" && q[|q| - 1] == e[|e| - 1]
  {
    assert q[|q| - |e|..][|e| - 1] == e[|e| - 1];
  }

  /** The saved image's path is none of the paths its sidecar write touches. */
  lemma SavedSurvivesSidecar(q: string, mime: string)
    requires EndsWith(q, ".tmp") || Host.ExtSuffix(q, "." + ExtFor(mime))
    ensures forall b, now :: q !in SidecarWrites(b, now)
  {
    var e := if EndsWith(q, ".tmp") then ".tmp" else "." + ExtFor(mime);
    assert EndsWith(q, e);
    assert e[|e| - 1] == 'g' || e[|e| - 1] == 'p';
    LastOfSuffix(q, e);
    forall b, now ensures q !in SidecarWrites(b, now) {
      NotSidecarWrite(q, b, now);
    }
  }

  /** The message of the constraint error `images.add` raises for a key that is already stored. */
  const ADD_CONSTRAINT_ERROR: string := "Key already exists in the object store."

  const NO_IMAGE_DATA: string := "No valid image data provided (blob failed and no dataUrl)"

  /**
   * The store half of saveNewImage (SyncEngine.ts:304-343): a forced id that is
   * already stored is pointed at the new file, anything else is added as a new
   * record. The result is the record the sidecar is written from, `None` when
   * the add failed.
   */
  method RecordSaved(db: Db, id: string, forced: bool, title: string, prompt: Option<string>, src: string, nowIso: string)
    returns (entry: Option<ImageRecord>)
    modifies db`images
    ensures entry.Some? <==> (forced && id in old(db.images)) || id !in old(db.images)
    ensures entry.Some? ==>
      Saved(old(db.images), db.images, id, forced, title, prompt, src, nowIso) &&
      id in db.images && entry.value == db.images[id]
    ensures entry.None? ==> db.images == old(db.images)
  {
    if forced {
      var existing := db.Get(id);
      if existing.Some? {
        var _ := db.Update(id, Repointed(src));
        return db.Get(id);
      }
    }
    var e := NewSaved(id, title, prompt, src, nowIso);
    NewSavedRecord(id, title, prompt, src, nowIso);
    var ok := db.Add(e);
    if !ok {
      return None;
    }
    entry := Some(e);
  }

  // ---------------------------------------------------------------- watcher events

  /** The extensions onFileEvent and handleSidecarChange take for images, without the dot. */
  const WATCHED_IMAGE_EXTS: seq<string> := ["jpg", "jpeg", "png", "webp", "gif", "bmp"]

  datatype FileKind = ImageFile | SidecarFile | OtherFile

  /** `path.split('.').pop()?.toLowerCase()` */
  function ExtOf(path: string): string
  {
    ToLower(LastPiece(path, '.'))
  }

  /** onFileEvent's `isImage` and `isSidecar` (SyncEngine.ts:377-379). */
  function Classify(path: string): FileKind
  {
    var ext := ExtOf(path);
    if ext != "" && ext in WATCHED_IMAGE_EXTS then ImageFile
    else if ext == "json" || ext == "txt" then SidecarFile
    else OtherFile
  }

  /** The piece after the last `c` of `a + [c] + t` is `t` when `t` holds no `c`. */
  lemma {:induction false} LastPieceAfter(a: string, c: char, t: string)
    requires c !in t
    ensures LastPiece(a + [c] + t, c) == t
    decreases |a|
  {
    var s := a + [c] + t;
    var i := IndexOf(s, c);
    FirstSepOfJoin(a, c, t);
    SplitLast(s, c, i);
    if i == |a| {
      assert s[i + 1..] == t;
      SplitNoSep(t, c);
    } else {
      assert s[i + 1..] == a[i + 1..] + [c] + t;
      LastPieceAfter(a[i + 1..], c, t);
    }
  }

  /** The first `c` of `a + [c] + t` lies within `a` or is the one added. */
  lemma FirstSepOfJoin(a: string, c: char, t: string)
    ensures 0 <= IndexOf(a + [c] + t, c) <= |a|
  {
    var s := a + [c] + t;
    assert s[|a|] == c;
  }

  /** Splitting at the first `c`: the last piece is the last piece of the rest. */
  lemma SplitLast(s: string, c: char, i: int)
    requires i == IndexOf(s, c) && i >= 0
    ensures LastPiece(s, c) == LastPiece(s[i + 1..], c)
  {
    var rest := Split(s[i + 1..], c);
    assert Split(s, c) == [s[..i]] + rest;
  }

  /** A string without `c` is a single piece. */
  lemma SplitNoSep(t: string, c: char)
    requires c !in t
    ensures LastPiece(t, c) == t
  {
    assert IndexOf(t, c) < 0;
  }

  /** A path is classified by its real extension, whatever comes before it. */
  lemma ClassifyByExtension(base: string, ext: string)
    requires '.' !in ext
    ensures var e := ToLower(ext);
      Classify(base + "." + ext) ==
        if e != "" && e in WATCHED_IMAGE_EXTS then ImageFile
        else if e == "json" || e == "txt" then SidecarFile
        else OtherFile
  {
    LastPieceAfter(base, '.', ext);
    assert base + "." + ext == base + ['.'] + ext;
  }

  /** `file://` and the path with backslashes turned to slashes. */
  function FileUrl(path: string): string
  {
    FILE_SCHEME + ReplaceChar(path, '\\', '/')
  }

  /** `path.replace(/\.[^.]+$/, ext)`: the last extension replaced; a path without one is left alone. */
  function ReplaceExt(path: string, ext: string): string
  {
    if Host.StripExt(path) != path then Host.StripExt(path) + ext else path
  }

  /** Some stored record has that src. */
  predicate Tracked(images: map<string, ImageRecord>, src: string)
  {
    exists id :: id in images && images[id].src == Some(src)
  }

  /** Some stored record has that hash. */
  predicate HashTaken(images: map<string, ImageRecord>, h: string)
  {
    exists id :: id in images && images[id].hash == Some(h)
  }

  /** The stored record a JSON sidecar next to the file names by a truthy id (SyncEngine.ts:405-420). */
  function ClaimedId(sidecar: Option<Host.Content>, images: map<string, ImageRecord>): (r: Option<string>)
    ensures r.Some? ==> r.value in images && r.value != ""
  {
    if sidecar.Some? && sidecar.value.Json? && Id in sidecar.value.obj && sidecar.value.obj[Id].Str? &&
       sidecar.value.obj[Id].s != "" && sidecar.value.obj[Id].s in images
    then Some(sidecar.value.obj[Id].s)
    else None
  }

  /** `h.success ? h.data : ''` */
  function HashOf(r: Result<string>): string
  {
    if r.Success? then r.value else ""
  }

  /** `p.replace(/\\/g, '/').toLowerCase()` */
  function NormPath(p: string): string
  {
    ToLower(ReplaceChar(p, '\\', '/'))
  }

  /** `normVaultWithSlash`: the normalised vault path ending in one '/', or "" without a vault. */
  function VaultPrefix(vault: string): string
  {
    if vault == "" then ""
    else
      var v := NormPath(vault);
      if EndsWith(v, "/") then v else v + "/"
  }

  /** One test of the attribution loop (SyncEngine.ts:476-481): a truthy path that is a bare prefix of the file's. */
  predicate SourceMatches(s: LibrarySource, normPath: string)
  {
    s.path.Some? && s.path.value != "" && StartsWith(normPath, NormPath(s.path.value))
  }

  /** The id of the first source that matches, if any. */
  function FirstSourceFor(sources: seq<LibrarySource>, normPath: string): (r: Option<string>)
    decreases |sources|
  {
    if sources == [] then None
    else if SourceMatches(sources[0], normPath) then Some(sources[0].id)
    else FirstSourceFor(sources[1..], normPath)
  }

  /** The source a new file is attributed to (SyncEngine.ts:459-494); `None` when it is unknown or has a falsy id. */
  function Attribution(vault: string, sources: seq<LibrarySource>, path: string): Option<string>
  {
    var np := NormPath(path);
    var vp := VaultPrefix(vault);
    if vp != "" && StartsWith(np, vp) then Some(INTERNAL)
    else
      var s := FirstSourceFor(sources, np);
      if s.Some? && s.value != "" then s else None
  }

  /** What handleNewFile decides, checking in this order (SyncEngine.ts:398-494). */
  datatype NewFileDecision = SkipTracked | Reassociate(id: string) | SkipDuplicate | SkipUnknown | Import(sourceId: string, hash: string)

  function DecideNewFile(images: map<string, ImageRecord>, sources: seq<LibrarySource>, sidecar: Option<Host.Content>,
                         hash: Result<string>, vault: string, path: string): NewFileDecision
  {
    if Tracked(images, FileUrl(path)) then SkipTracked
    else if ClaimedId(sidecar, images).Some? then Reassociate(ClaimedId(sidecar, images).value)
    else if HashOf(hash) != "" && HashTaken(images, HashOf(hash)) then SkipDuplicate
    else if Attribution(vault, sources, path).None? then SkipUnknown
    else Import(Attribution(vault, sources, path).value, HashOf(hash))
  }

  /** The log reason of each skip. */
  function SkipReason(d: NewFileDecision): string
  {
    match d
    case SkipTracked => "already_tracked_by_src"
    case SkipDuplicate => "duplicate_hash"
    case SkipUnknown => "unknown_source"
    case _ => ""
  }

  /** The attribution loop finds the first matching source. */
  lemma {:induction false} FirstSourceSpec(sources: seq<LibrarySource>, np: string)
    ensures FirstSourceFor(sources, np).None? <==> forall i :: 0 <= i < |sources| ==> !SourceMatches(sources[i], np)
    ensures FirstSourceFor(sources, np).Some? ==>
      exists k :: 0 <= k < |sources| && SourceMatches(sources[k], np) && FirstSourceFor(sources, np) == Some(sources[k].id) &&
        forall j :: 0 <= j < k ==> !SourceMatches(sources[j], np)
    decreases |sources|
  {
    if sources != [] && !SourceMatches(sources[0], np) {
      FirstSourceSpec(sources[1..], np);
      if FirstSourceFor(sources[1..], np).Some? {
        var k :| 0 <= k < |sources[1..]| && SourceMatches(sources[1..][k], np) && FirstSourceFor(sources[1..], np) == Some(sources[1..][k].id) &&
          forall j :: 0 <= j < k ==> !SourceMatches(sources[1..][j], np);
        assert sources[k + 1] == sources[1..][k];
        assert forall j :: 1 <= j < k + 1 ==> sources[j] == sources[1..][j - 1];
      }
      assert forall i :: 1 <= i < |sources| ==> sources[i] == sources[1..][i - 1];
    } else if sources != [] {
      assert SourceMatches(sources[0], np);
    }
  }

  /** A file inside the vault folder is internal, whatever the sources say. */
  lemma InsideVaultIsInternal(vault: string, sources: seq<LibrarySource>, path: string)
    requires vault != "" && StartsWith(NormPath(path), VaultPrefix(vault))
    ensures Attribution(vault, sources, path) == Some(INTERNAL)
  {
    assert |VaultPrefix(vault)| > 0;
  }

  /**
   * The linked-source test is a bare prefix, with no '/' boundary: a file in
   * `/photos2` is attributed to a source at `/photos`.
   */
  lemma BarePrefixAttribution()
    ensures Attribution("", [LibrarySource("s1", "Photos", LocalFolder, Some("/photos"), 0)], "/photos2/a.png") == Some("s1")
  {
    var np := NormPath("/photos2/a.png");
    assert np == "/photos2/a.png";
    assert NormPath("/photos") == "/photos";
    assert np[..7] == "/photos";
  }

  /** `(path.split(/[\\\\/]/).pop() || 'Untitled').split('.')[0]` */
  function FileTitle(path: string): string
  {
    var name := LastPiece(ReplaceChar(path, '\\', '/'), '/');
    Split(if name != "" then name else "Untitled", '.')[0]
  }

  /** What the metadata reader and the colour extractor answer for a new file. */
  datatype Enrichment = Enrichment(meta: Option<ImageService.Meta>, structured: Patch, simplePositive: Option<string>,
                                   colors: Option<seq<string>>)

  /** The attribution loop over the sources (SyncEngine.ts:475-487). */
  method FindSource(sources: seq<LibrarySource>, np: string) returns (sid: Option<string>)
    ensures sid == FirstSourceFor(sources, np)
  {
    var i := 0;
    while i < |sources|
      invariant 0 <= i <= |sources|
      invariant FirstSourceFor(sources, np) == FirstSourceFor(sources[i..], np)
    {
      assert sources[i..][0] == sources[i] && sources[i..][1..] == sources[i + 1..];
      if sources[i].path.Some? && sources[i].path.value != "" {
        var normSourcePath := NormPath(sources[i].path.value);
        if StartsWith(np, normSourcePath) {
          return Some(sources[i].id);
        }
      }
      i := i + 1;
    }
    assert sources[i..] == [];
    sid := None;
  }

  /** The attribution step of handleNewFile (SyncEngine.ts:459-494). */
  method AttributeFile(sources: seq<LibrarySource>, vault: string, path: string) returns (sourceId: Option<string>)
    ensures sourceId == Attribution(vault, sources, path)
  {
    var normPath := NormPath(path);
    var vaultPrefix := VaultPrefix(vault);
    sourceId := None;
    if vaultPrefix != "" && StartsWith(normPath, vaultPrefix) {
      sourceId := Some(INTERNAL);
    } else {
      var found := FindSource(sources, normPath);
      if found.Some? && found.value != "" {
        sourceId := found;
      }
    }
  }

  /** The properties handleNewFile passes to createBaseImage (SyncEngine.ts:498-504). */
  function NewFileOverrides(path: string, sourceId: string, hash: string, nowIso: string): (o: Patch)
    ensures Id !in o && Title in o && Hash in o && o[Title] == Str(FileTitle(path)) && o[Hash] == Str(hash)
    ensures Src in o && SourceId in o && Date in o && o[Src] == Str(FileUrl(path)) && o[SourceId] == Str(sourceId) && o[Date] == Str(nowIso)
  {
    map[Src := Str(FileUrl(path)), Title := Str(FileTitle(path)), SourceId := Str(sourceId), Date := Str(nowIso), Hash := Str(hash)]
  }

  /**
   * The record handleNewFile builds for an untracked file (SyncEngine.ts:498-506),
   * with `fs` and `roots` the files and allow-list the metadata reader sees:
   * the base record for its url, title, source, time and digest, enriched
   * with what the metadata reader finds.
   */
  function NewFileRecord(host: Host.MainProcess, fs: map<string, Host.Content>, roots: set<string>, path: string,
                         sourceId: string, hash: string, freshId: string, nowIso: string, enrich: Enrichment): ImageRecord
  {
    var base := ImageService.CreateBaseImage(NewFileOverrides(path, sourceId, hash, nowIso), freshId, nowIso);
    Apply(base, ImageService.EnrichedUpdates(base, host, fs, roots, true, enrich.meta, enrich.structured,
                                             enrich.simplePositive, enrich.colors))
  }

  /**
   * The imported record points at the file and carries the attributed source
   * and the import time; its id, title and digest are the fresh id, the file
   * name and the file's digest unless the enrichment (a `.json` sidecar) names
   * them.
   */
  lemma NewFileRecordFields(host: Host.MainProcess, fs: map<string, Host.Content>, roots: set<string>, path: string,
                            sourceId: string, hash: string, freshId: string, nowIso: string, enrich: Enrichment)
    ensures var r := NewFileRecord(host, fs, roots, path, sourceId, hash, freshId, nowIso, enrich);
      r.src == Some(FileUrl(path)) && r.sourceId == sourceId && r.date == nowIso
    ensures var base := ImageService.CreateBaseImage(NewFileOverrides(path, sourceId, hash, nowIso), freshId, nowIso);
      var u := ImageService.EnrichedUpdates(base, host, fs, roots, true, enrich.meta, enrich.structured,
                                            enrich.simplePositive, enrich.colors);
      var r := NewFileRecord(host, fs, roots, path, sourceId, hash, freshId, nowIso, enrich);
      (Id !in u ==> Get(r, Id) == Str(freshId)) && (Title !in u ==> Get(r, Title) == Str(FileTitle(path))) &&
      (Hash !in u ==> Get(r, Hash) == Str(hash))
  {
    var base := ImageService.CreateBaseImage(NewFileOverrides(path, sourceId, hash, nowIso), freshId, nowIso);
    ImageService.EnrichedNoCore(base, host, fs, roots, true, enrich.meta, enrich.structured, enrich.simplePositive, enrich.colors);
    OverriddenBase(path, sourceId, hash, freshId, nowIso,
                   ImageService.EnrichedUpdates(base, host, fs, roots, true, enrich.meta, enrich.structured,
                                                enrich.simplePositive, enrich.colors));
  }

  /** What the overrides of handleNewFile leave in the base record under any further update `u`. */
  lemma OverriddenBase(path: string, sourceId: string, hash: string, freshId: string, nowIso: string, u: Patch)
    ensures var r := Apply(ImageService.CreateBaseImage(NewFileOverrides(path, sourceId, hash, nowIso), freshId, nowIso), u);
      (ImageService.NoCore(u) ==> r.src == Some(FileUrl(path)) && r.sourceId == sourceId && r.date == nowIso) &&
      (Id !in u ==> Get(r, Id) == Str(freshId)) && (Title !in u ==> Get(r, Title) == Str(FileTitle(path))) &&
      (Hash !in u ==> Get(r, Hash) == Str(hash))
  {
    var o := NewFileOverrides(path, sourceId, hash, nowIso);
    var base := ImageService.CreateBaseImage(o, freshId, nowIso);
    ImageService.CreateBaseGet(o, freshId, nowIso, Src);
    ImageService.CreateBaseGet(o, freshId, nowIso, SourceId);
    ImageService.CreateBaseGet(o, freshId, nowIso, Date);
    ImageService.CreateBaseGet(o, freshId, nowIso, Id);
    ImageService.CreateBaseGet(o, freshId, nowIso, Title);
    ImageService.CreateBaseGet(o, freshId, nowIso, Hash);
    assert Fits(Hash, o[Hash]);
    assert Get(base, Hash) == Str(hash);
    ApplyGet(base, u, Id);
    ApplyGet(base, u, Title);
    ApplyGet(base, u, Hash);
    if ImageService.NoCore(u) {
      ImageService.NoCoreKeeps(base, u);
    }
  }

  /** The record handleNewFile builds for an untracked file (SyncEngine.ts:498-506); the metadata reader sees the current files. */
  method NewFileImage(host: Host.MainProcess, path: string, sourceId: string, hash: string, freshId: string,
                      nowIso: string, enrich: Enrichment) returns (img: ImageRecord)
    ensures img == NewFileRecord(host, host.files, host.allowedPaths, path, sourceId, hash, freshId, nowIso, enrich)
  {
    var o := NewFileOverrides(path, sourceId, hash, nowIso);
    var base := ImageService.CreateBaseImage(o, freshId, nowIso);
    assert Src in o;
    ImageService.CreateBaseGet(o, freshId, nowIso, Src);
    assert IsFileUrl(base.src);
    var updates, _ := ImageService.EnrichImageMetadata(base, host, true, enrich.meta, enrich.structured,
                                                       enrich.simplePositive, enrich.colors);
    img := Apply(base, updates);
  }

  /**
   * The import half of handleNewFile (SyncEngine.ts:498-515): the new record
   * is added and gets its sidecar. The result is its id, `None` when the add
   * failed.
   */
  method ImportNewFile(db: Db, host: Host.MainProcess, path: string, sourceId: string, hash: string, freshId: string,
                       nowIso: string, enrich: Enrichment, now: int) returns (added: Option<string>)
    modifies db`images, host`files, host`dirs, host`allowedPaths, host`ignoredPaths, host`timers
    ensures added.None? ==> db.images == old(db.images) && host.files == old(host.files)
    ensures added.Some? ==>
      added.value !in old(db.images) && added.value in db.images &&
      db.images == old(db.images)[added.value := db.images[added.value]] &&
      db.images[added.value] == NewFileRecord(host, old(host.files), old(host.allowedPaths), path, sourceId, hash,
                                              freshId, nowIso, enrich) &&
      db.images[added.value].src == Some(FileUrl(path)) && db.images[added.value].sourceId == sourceId
    ensures added.Some? && added.value in db.images ==>
      var b := SidecarBase(FileUrl(path));
      b.Success? && host.AllowedWith(old(host.allowedPaths), Host.Dirname(b.value + ".json")) && b.value + ".json" !in host.faulty ==>
        b.value + ".json" in host.files && host.files[b.value + ".json"] == Host.Json(SidecarObject(added.value, db.images[added.value]))
  {
    var newImage := NewFileImage(host, path, sourceId, hash, freshId, nowIso, enrich);
    NewFileRecordFields(host, host.files, host.allowedPaths, path, sourceId, hash, freshId, nowIso, enrich);
    var ok := AddWithSidecar(db, host, newImage, FileUrl(path), now);
    if !ok {
      return None;
    }
    added := Some(newImage.id);
  }

  /**
   * `await db.images.add(newImage)` and then the record's sidecar
   * (SyncEngine.ts:508-511): nothing happens when the add is rejected.
   */
  method AddWithSidecar(db: Db, host: Host.MainProcess, img: ImageRecord, src: string, now: int) returns (ok: bool)
    modifies db`images, host`files, host`dirs, host`allowedPaths, host`ignoredPaths, host`timers
    ensures ok <==> img.id !in old(db.images)
    ensures !ok ==> db.images == old(db.images) && host.files == old(host.files)
    ensures ok ==> db.images == old(db.images)[img.id := img]
    ensures ok ==>
      var b := SidecarBase(src);
      b.Success? && host.AllowedWith(old(host.allowedPaths), Host.Dirname(b.value + ".json")) && b.value + ".json" !in host.faulty ==>
        b.value + ".json" in host.files && host.files[b.value + ".json"] == Host.Json(SidecarObject(img.id, img))
  {
    ok := db.Add(img);
    if !ok {
      return;
    }
    ghost var stored := db.images;
    WriteSidecar(host, img.id, src, img, now);
    assert db.images == stored;
  }

  /**
   * The checks of handleNewFile, in the source's order (SyncEngine.ts:398-494):
   * already tracked by url, claimed by the id in its JSON sidecar, a duplicate
   * by digest, attributed to no source. Nothing changes.
   */
  method CheckNewFile(db: Db, host: Host.MainProcess, path: string, vault: string) returns (d: NewFileDecision)
    ensures d == DecideNewFile(db.images, db.sources, host.ReadFile(ReplaceExt(path, ".json")),
                               host.CalculateHash(path), vault, path)
  {
    var sidecar := host.ReadFile(ReplaceExt(path, ".json"));
    var hashResult := host.CalculateHash(path);
    var bySrc := db.FirstBySrc(FileUrl(path));
    if bySrc.Some? {
      return SkipTracked;
    }
    assert !Tracked(db.images, FileUrl(path));
    if sidecar.Some? && sidecar.value.Json? && Id in sidecar.value.obj && sidecar.value.obj[Id].Str? &&
       sidecar.value.obj[Id].s != "" {
      var claimed := sidecar.value.obj[Id].s;
      var existing := db.Get(claimed);
      if existing.Some? {
        return Reassociate(claimed);
      }
    }
    assert ClaimedId(sidecar, db.images).None?;
    var fileHash := HashOf(hashResult);
    if fileHash != "" {
      var dup := db.FirstByHash(fileHash);
      if dup.Some? {
        return SkipDuplicate;
      }
      assert !HashTaken(db.images, fileHash);
    }
    var sourceId := AttributeFile(db.sources, vault, path);
    if sourceId.None? {
      return SkipUnknown;
    }
    d := Import(sourceId.value, fileHash);
  }

  // ------------------------------------------------------------ sidecar edits

  /** `` `file://${basePath}.${imgExt}`.replace(/\\/g, '/') `` for a sidecar path (SyncEngine.ts:522-529). */
  function SidecarImageUrl(path: string, ext: string): string
  {
    ReplaceChar(FILE_SCHEME + Host.StripExt(path) + "." + ext, '\\', '/')
  }

  /** Extension `k` is the first in the list whose image url is tracked. */
  predicate FirstTrackedExt(images: map<string, ImageRecord>, path: string, k: int)
  {
    0 <= k < |WATCHED_IMAGE_EXTS| && Tracked(images, SidecarImageUrl(path, WATCHED_IMAGE_EXTS[k])) &&
    forall j :: 0 <= j < k ==> !Tracked(images, SidecarImageUrl(path, WATCHED_IMAGE_EXTS[j]))
  }

  /**
   * The search of handleSidecarChange for the image beside a sidecar
   * (SyncEngine.ts:525-532): the extensions in order, the first url some record
   * holds. `k` is the extension that matched.
   */
  method FindSidecarTarget(db: Db, path: string) returns (target: Option<string>, ghost k: int)
    ensures target.None? <==> forall j :: 0 <= j < |WATCHED_IMAGE_EXTS| ==> !Tracked(db.images, SidecarImageUrl(path, WATCHED_IMAGE_EXTS[j]))
    ensures target.Some? ==>
      FirstTrackedExt(db.images, path, k) && target.value in db.images &&
      db.images[target.value].src == Some(SidecarImageUrl(path, WATCHED_IMAGE_EXTS[k]))
  {
    k := 0;
    var i := 0;
    while i < |WATCHED_IMAGE_EXTS|
      invariant 0 <= i <= |WATCHED_IMAGE_EXTS|
      invariant forall j :: 0 <= j < i ==> !Tracked(db.images, SidecarImageUrl(path, WATCHED_IMAGE_EXTS[j]))
    {
      var imgUrl := SidecarImageUrl(path, WATCHED_IMAGE_EXTS[i]);
      target := db.FirstBySrc(imgUrl);
      if target.Some? {
        k := i;
        return;
      }
      i := i + 1;
    }
    target := None;
  }

  /** `String(e)` of the SyntaxError JSON.parse throws; the exact text is the JavaScript engine's. */
  const JSON_PARSE_ERROR := "SyntaxError: invalid JSON"

  /** What a sidecar's content does to its image. */
  datatype SidecarEffect = NoUpdate | UpdateWith(changes: Patch) | ParseFailed

  /** `!content`: no file, or an empty one. */
  predicate NoContent(c: Option<Host.Content>)
  {
    c.None? || c.value == Host.Text("") || c.value == Host.Binary([])
  }

  /**
   * SyncEngine.ts:543-550: a text sidecar's content becomes the prompt, a JSON
   * one's properties but its id and url are copied; a `.json` file that is not
   * a JSON object fails to parse.
   */
  function SidecarEffectOf(ext: string, c: Host.Content): (e: SidecarEffect)
    ensures e.UpdateWith? ==> Id !in e.changes && Src !in e.changes
  {
    if ext == "txt" then (if c.Text? then UpdateWith(map[Prompt := Str(c.text)]) else NoUpdate)
    else if ext == "json" then (if c.Json? then UpdateWith(Without(c.obj, {Id, Src})) else ParseFailed)
    else NoUpdate
  }

  /** A JSON sidecar never moves its image or changes its key. */
  lemma JsonSidecarKeepsIdentity(r: ImageRecord, obj: Patch)
    ensures var e := SidecarEffectOf("json", Host.Json(obj));
      e.UpdateWith? && Updated(r, e.changes).id == r.id && Updated(r, e.changes).src == r.src
  {
    UpdatedGet(r, Without(obj, {Id, Src}), Src);
  }

  /** A text sidecar sets the prompt and nothing else. */
  lemma TxtSidecarSetsPrompt(r: ImageRecord, t: string)
    ensures var e := SidecarEffectOf("txt", Host.Text(t));
      e.UpdateWith? && Updated(r, e.changes) == r.(prompt := t)
  {
  }

  /** Which handler onFileEvent ran. */
  datatype Handling = DuplicateEvent | NewFile | SidecarChange | Ignored

  // ------------------------------------------------------------ reconcile

  /** reconcile looks only at records whose url starts with `file://` (SyncEngine.ts:574). */
  predicate FileBacked(r: ImageRecord)
  {
    r.src.Some? && StartsWith(r.src.value, FILE_SCHEME)
  }

  /** `img.src.replace('file://', '')`: the first occurrence is the scheme itself. */
  function FsPath(r: ImageRecord): string
    requires FileBacked(r)
  {
    r.src.value[|FILE_SCHEME|..]
  }

  /** The file-backed records whose file is gone from the disk holding `files` and `dirs`. */
  function Orphans(images: map<string, ImageRecord>, files: map<string, Host.Content>, dirs: set<string>): (o: set<string>)
    ensures o <= images.Keys
  {
    set id | id in images && FileBacked(images[id]) && FsPath(images[id]) !in files && FsPath(images[id]) !in dirs
  }

  /** Once the orphans are gone, a second pass finds none. */
  lemma ReconcileIdempotent(images: map<string, ImageRecord>, files: map<string, Host.Content>, dirs: set<string>)
    ensures Orphans(images - Orphans(images, files, dirs), files, dirs) == {}
  {
    var rest := images - Orphans(images, files, dirs);
    forall id | id in rest && FileBacked(rest[id]) ensures FsPath(rest[id]) in files || FsPath(rest[id]) in dirs {
      assert rest[id] == images[id];
    }
  }

  /** The log after each entry of `es` was pushed in turn. */
  function PushedAll(l: seq<LogEntry>, es: seq<LogEntry>): seq<LogEntry>
    decreases |es|
  {
    if es == [] then l else PushedAll(Pushed(l, es[0]), es[1..])
  }

  /** Pushing one more entry after a run of them. */
  lemma {:induction false} PushedAllSnoc(l: seq<LogEntry>, es: seq<LogEntry>, e: LogEntry)
    ensures PushedAll(l, es + [e]) == Pushed(PushedAll(l, es), e)
    decreases |es|
  {
    if es == [] {
      assert [e][1..] == [];
    } else {
      assert (es + [e])[0] == es[0] && (es + [e])[1..] == es[1..] + [e];
      PushedAllSnoc(Pushed(l, es[0]), es[1..], e);
    }
  }

  /** A log within the cap stays within it. */
  lemma {:induction false} PushedAllBounded(l: seq<LogEntry>, es: seq<LogEntry>)
    requires |l| <= MAX_LOG_ENTRIES
    ensures |PushedAll(l, es)| <= MAX_LOG_ENTRIES
    decreases |es|
  {
    if es != [] {
      PushedAllBounded(Pushed(l, es[0]), es[1..]);
    }
  }

  /** The entry reconcile logs for a removed record (SyncEngine.ts:599). */
  function RemovalEntry(images: map<string, ImageRecord>, id: string, now: int): LogEntry
    requires id in images && FileBacked(images[id])
  {
    LogEntry(now, "reconcile", Some(id), Some(FsPath(images[id])), Ok, Some("orphan_removed"))
  }

  /** One removal entry per removed record, in the order they were removed. */
  function RemovalLog(images: map<string, ImageRecord>, order: seq<string>, now: int): seq<LogEntry>
    requires forall id :: id in order ==> id in images && FileBacked(images[id])
    decreases |order|
  {
    if order == [] then []
    else RemovalLog(images, order[..|order| - 1], now) + [RemovalEntry(images, order[|order| - 1], now)]
  }

  lemma RemovalLogSnoc(images: map<string, ImageRecord>, order: seq<string>, id: string, now: int)
    requires forall x :: x in order ==> x in images && FileBacked(images[x])
    requires id in images && FileBacked(images[id])
    ensures RemovalLog(images, order + [id], now) == RemovalLog(images, order, now) + [RemovalEntry(images, id, now)]
  {
    assert (order + [id])[..|order|] == order;
  }

  /** The log after one more removal is logged. */
  lemma RemovalLogStep(start: seq<LogEntry>, images: map<string, ImageRecord>, order: seq<string>, id: string, now: int)
    requires forall x :: x in order ==> x in images && FileBacked(images[x])
    requires id in images && FileBacked(images[id])
    ensures Pushed(PushedAll(start, RemovalLog(images, order, now)), RemovalEntry(images, id, now)) ==
            PushedAll(start, RemovalLog(images, order + [id], now))
  {
    RemovalLogSnoc(images, order, id, now);
    PushedAllSnoc(start, RemovalLog(images, order, now), RemovalEntry(images, id, now));
  }

  /** One step of the reconcile loop on the bookkeeping sets: `id` leaves `todo`, and joins `removed` when it was an orphan. */
  lemma OrphanStep(orphans: set<string>, removed: set<string>, todo: set<string>, id: string, gone: bool)
    requires removed !! todo && removed + (orphans * todo) == orphans
    requires id in todo && (gone <==> id in orphans)
    ensures var next := if gone then removed + {id} else removed;
      next !! (todo - {id}) && next + (orphans * (todo - {id})) == orphans &&
      |next| == if gone then |removed| + 1 else |removed|
  {
  }

  /** When nothing is left to visit, every orphan was removed. */
  lemma OrphansDone(orphans: set<string>, removed: set<string>, todo: set<string>)
    requires todo == {} && removed + (orphans * todo) == orphans
    ensures removed == orphans
  {
  }

  /** Deleting one more key. */
  lemma DeleteStep(images: map<string, ImageRecord>, removed: set<string>, id: string)
    ensures (images - removed) - {id} == images - (removed + {id})
  {
  }

  /** What handleNewFile did. */
  datatype NewFileOutcome = NotImported(reason: string) | PathUpdated(id: string) | Imported(id: string) | AddFailed

  class Engine {
    var processed: map<string, Processed>
    var locks: set<string>
    var log: seq<LogEntry>

    constructor ()
      ensures processed == map[] && locks == {} && log == []
    {
      processed := map[];
      locks := {};
      log := [];
    }

    predicate Valid()
      reads this`log
    {
      |log| <= MAX_LOG_ENTRIES
    }

    /** shouldSkipEvent (SyncEngine.ts:61-79): checking an expired entry also deletes it. */
    method ShouldSkipEvent(e: FileEvent, now: int) returns (skip: bool)
      modifies this`processed
      ensures skip == Skips(old(processed), e, now)
      ensures var key := ToLower(e.path);
        processed == if key in old(processed) && now - old(processed)[key].processedAt > EVENT_TTL_MS
                     then old(processed) - {key} else old(processed)
    {
      var key := ToLower(e.path);
      if key !in processed {
        return false;
      }
      var cached := processed[key];
      if now - cached.processedAt > EVENT_TTL_MS {
        processed := processed - {key};
        return false;
      }
      skip := e.size == Some(cached.size) && e.mtime == Some(cached.mtime);
    }

    /** markEventProcessed (SyncEngine.ts:81-89) */
    method MarkEventProcessed(e: FileEvent, now: int)
      modifies this`processed
      ensures processed == old(processed)[ToLower(e.path) := Fingerprint(e, now)]
    {
      processed := processed[ToLower(e.path) := Fingerprint(e, now)];
    }

    /** The interval callback of SyncEngine.ts:92-99. */
    method Sweep(now: int)
      modifies this`processed
      ensures processed == Swept(old(processed), now)
    {
      var kept: map<string, Processed> := map[];
      var todo := processed.Keys;
      while todo != {}
        invariant todo <= processed.Keys
        invariant forall k :: k in kept <==> k in processed && k !in todo && now - processed[k].processedAt <= EVENT_TTL_MS
        invariant forall k :: k in kept ==> kept[k] == processed[k]
        decreases |todo|
      {
        var k :| k in todo;
        if now - processed[k].processedAt <= EVENT_TTL_MS {
          kept := kept[k := processed[k]];
        }
        todo := todo - {k};
      }
      processed := kept;
    }

    // -------------------------------------------------------------- locks

    /** isLocked (SyncEngine.ts:105-107) */
    function IsLocked(id: string): (b: bool)
      reads this`locks
      ensures b <==> id in locks
    {
      id in locks
    }

    /** lock (SyncEngine.ts:109-111) */
    method Lock(id: string)
      modifies this`locks
      ensures locks == old(locks) + {id}
    {
      locks := locks + {id};
    }

    /** unlock (SyncEngine.ts:113-115) */
    method Unlock(id: string)
      modifies this`locks
      ensures locks == old(locks) - {id}
    {
      locks := locks - {id};
    }

    // -------------------------------------------------------------- log

    /** log / addLog (SyncEngine.ts:139-151) */
    method Log(op: string, id: Option<string>, path: Option<string>, result: Verdict, reason: Option<string>, now: int)
      modifies this`log
      ensures log == Pushed(old(log), LogEntry(now, op, id, path, result, reason))
    {
      log := log + [LogEntry(now, op, id, path, result, reason)];
      if |log| > MAX_LOG_ENTRIES {
        log := log[1..];
      }
    }

    // -------------------------------------------------------------- applyPatch

    /**
     * applyPatch (SyncEngine.ts:159-210) under withLock (117-132). A lock held by
     * someone else is waited on once; `heldAfterWait` says whether it was still
     * held then, in which case the call rejects and nothing changes.
     */
    method ApplyPatch(db: Db, host: Host.MainProcess, id: string, patch: Patch, heldAfterWait: bool, now: int)
      returns (r: Result<SyncResult>, ghost merged: Patch)
      modifies this`locks, this`log, db`images, host`files, host`dirs, host`allowedPaths, host`ignoredPaths, host`timers
      ensures r.Success? && id in old(db.images) ==>
        var w := PatchSidecar(id, old(db.images)[id], merged);
        w.Some? && old(host.IsPathAllowed(Host.Dirname(w.value.0))) && w.value.0 !in host.faulty ==>
          w.value.0 in host.files && host.files[w.value.0] == w.value.1
      ensures r.Failure? <==> old(id in locks) && heldAfterWait
      ensures r.Failure? ==>
        r.error == "Lock timeout for " + id && locks == old(locks) && log == old(log) &&
        db.images == old(db.images) && host.files == old(host.files)
      ensures r.Success? ==> locks == old(locks) - {id}
      ensures r.Success? ==> Patched(old(db.images), db.images, id, patch, merged, r.value)
      ensures r.Success? ==> log == Pushed(old(log), PatchEntry(id in old(db.images), id, now))
    {
      merged := patch;
      if id in locks {
        if heldAfterWait {
          return Failure("Lock timeout for " + id), merged;
        }
        // the holder released the lock while this call waited
        locks := locks - {id};
      }
      ghost var held := locks;
      assert held == old(locks) - {id};
      Lock(id);
      assert locks == held + {id};
      var res;
      res, merged := PatchLocked(db, host, id, patch, now);
      assert locks == held + {id};
      Unlock(id);
      assert locks == held;
      r := Success(res);
    }

    /** The body applyPatch runs while it holds the lock. */
    method PatchLocked(db: Db, host: Host.MainProcess, id: string, patch: Patch, now: int) returns (res: SyncResult, merged: Patch)
      modifies this`log, db`images, host`files, host`dirs, host`allowedPaths, host`ignoredPaths, host`timers
      ensures id in old(db.images) ==>
        var w := PatchSidecar(id, old(db.images)[id], merged);
        w.Some? && old(host.IsPathAllowed(Host.Dirname(w.value.0))) && w.value.0 !in host.faulty ==>
          w.value.0 in host.files && host.files[w.value.0] == w.value.1
      ensures Patched(old(db.images), db.images, id, patch, merged, res)
      ensures log == Pushed(old(log), PatchEntry(id in old(db.images), id, now))
    {
      merged := patch;
      var found := db.Get(id);
      if found.None? {
        Log("patch", Some(id), None, Failed, Some("not_found"), now);
        return SyncResult(false, id, None, Some("Image not found")), merged;
      }
      var dbItem := found.value;
      ghost var before := db.images;
      assert id in before && dbItem == before[id];
      merged := RenameForPatch(host, dbItem, patch, now);
      var _ := db.Update(id, merged);
      ghost var after := db.images;
      assert after == before[id := Updated(dbItem, merged)];
      SidecarForPatch(host, id, dbItem, patch, merged, now);
      Log("patch", Some(id), None, Ok, None, now);
      res := SyncResult(true, id, FinalSrc(merged, dbItem), None);
      assert Patched(before, after, id, patch, merged, res);
    }

    /**
     * saveNewImage (SyncEngine.ts:214-360). `blob` is the blob given, `fetched`
     * the response to the data URL when one was given, `freshId` generateId's
     * value and `nowIso` the ISO time. `savedPath` is the path the file was
     * saved at.
     */
    method SaveNewImage(db: Db, host: Host.MainProcess, title: string, prompt: Option<string>, blob: Option<Blob>,
                        fetched: Option<Blob>, vaultPath: string, forcedId: Option<string>, freshId: string,
                        nowIso: string, now: int)
      returns (res: SyncResult, ghost savedPath: string)
      modifies this`log, db`images, host`files, host`dirs, host`allowedPaths, host`ignoredPaths, host`timers
      ensures res.id == SaveId(forcedId, freshId)
      ensures vaultPath == "" ==>
        res == SyncResult(false, res.id, None, Some("Vault path not configured")) && host.files == old(host.files)
      ensures vaultPath != "" && Payload(blob, fetched).None? ==>
        res == SyncResult(false, res.id, None, Some(NO_IMAGE_DATA)) && host.files == old(host.files)
      ensures !res.success ==>
        res.src.None? && res.error.Some? && db.images == old(db.images) &&
        log == Pushed(old(log), LogEntry(now, "save_new", Some(res.id), None, Failed, res.error))
      ensures res.success ==>
        vaultPath != "" && Payload(blob, fetched).Some? && res.error.None? &&
        res.src == Some(FILE_SCHEME + ReplaceChar(savedPath, '\\', '/')) &&
        Saved(old(db.images), db.images, res.id, forcedId.Some? && forcedId.value != "", title, prompt, res.src.value, nowIso) &&
        log == Pushed(old(log), LogEntry(now, "save_new", Some(res.id), Some(savedPath), Ok, None))
      ensures res.success ==>
        savedPath in host.files && host.files[savedPath] == Host.Binary(Payload(blob, fetched).value.data)
      ensures res.success ==> res.id in db.images
      ensures res.success && res.id in db.images ==>
        var b := SidecarBase(res.src.value);
        b.Success? && host.AllowedWith(old(host.allowedPaths), Host.Dirname(b.value + ".json")) && b.value + ".json" !in host.faulty ==>
          b.value + ".json" in host.files && host.files[b.value + ".json"] == Host.Json(SidecarObject(res.id, db.images[res.id]))
    {
      var id := SaveId(forcedId, freshId);
      savedPath := "";
      var stored := SaveFile(host, title, blob, fetched, vaultPath, id, now);
      if stored.Failure? {
        res := SaveFailed(id, stored.error, now);
        return;
      }
      var src := FILE_SCHEME + ReplaceChar(stored.value, '\\', '/');
      var entry := RecordSaved(db, id, forcedId.Some? && forcedId.value != "", title, prompt, src, nowIso);
      if entry.None? {
        res := SaveFailed(id, ADD_CONSTRAINT_ERROR, now);
        return;
      }
      ghost var roots := old(host.allowedPaths);
      SavedSidecar(host, id, src, entry.value, stored.value, Payload(blob, fetched).value.mime, roots, now);
      Log("save_new", Some(id), Some(stored.value), Ok, None, now);
      savedPath := stored.value;
      res := SyncResult(true, id, Some(src), None);
    }

    /**
     * The sidecar saveNewImage writes for the stored record (SyncEngine.ts:346-348):
     * it lands next to the saved file, whose bytes it leaves alone; `roots` are
     * allowed roots from before the save, which only grow.
     */
    static method SavedSidecar(host: Host.MainProcess, id: string, src: string, data: ImageRecord, saved: string,
                               mime: string, ghost roots: set<string>, now: int)
      modifies host`files, host`dirs, host`allowedPaths, host`ignoredPaths, host`timers
      ensures EndsWith(saved, ".tmp") || Host.ExtSuffix(saved, "." + ExtFor(mime)) ==>
        (saved in host.files <==> saved in old(host.files)) &&
        (saved in host.files ==> host.files[saved] == old(host.files)[saved])
      ensures roots <= old(host.allowedPaths) ==>
        var b := SidecarBase(src);
        b.Success? && host.AllowedWith(roots, Host.Dirname(b.value + ".json")) && b.value + ".json" !in host.faulty ==>
          b.value + ".json" in host.files && host.files[b.value + ".json"] == Host.Json(SidecarObject(id, data))
    {
      var b := SidecarBase(src);
      if b.Success? && roots <= host.allowedPaths && host.AllowedWith(roots, Host.Dirname(b.value + ".json")) {
        host.AllowedGrows(roots, host.allowedPaths, Host.Dirname(b.value + ".json"));
      }
      if EndsWith(saved, ".tmp") || Host.ExtSuffix(saved, "." + ExtFor(mime)) {
        SavedSurvivesSidecar(saved, mime);
      }
      WriteSidecar(host, id, src, data, now);
    }

    /** saveNewImage's catch: the failure is logged and reported. */
    method SaveFailed(id: string, msg: string, now: int) returns (res: SyncResult)
      modifies this`log
      ensures res == SyncResult(false, id, None, Some(msg))
      ensures log == Pushed(old(log), LogEntry(now, "save_new", Some(id), None, Failed, Some(msg)))
    {
      Log("save_new", Some(id), None, Failed, Some(msg), now);
      res := SyncResult(false, id, None, Some(msg));
    }

    // -------------------------------------------------------------- watcher

    /**
     * handleNewFile (SyncEngine.ts:394-518) for an image the watcher reported.
     * `freshId` and `nowIso` stand for generateId and the clock, `enrich` for
     * the metadata reader's and colour extractor's answers; `d` is what the
     * checks decided, and the log says why a file was skipped.
     */
    method HandleNewFile(db: Db, host: Host.MainProcess, path: string, vault: string, freshId: string, nowIso: string,
                         enrich: Enrichment, now: int) returns (o: NewFileOutcome, d: NewFileDecision)
      modifies this`log, db`images, host`files, host`dirs, host`allowedPaths, host`ignoredPaths, host`timers
      ensures d == DecideNewFile(old(db.images), old(db.sources), old(host.ReadFile(ReplaceExt(path, ".json"))),
                                 old(host.CalculateHash(path)), vault, path)
      ensures d.SkipTracked? || d.SkipDuplicate? || d.SkipUnknown? ==>
        o == NotImported(SkipReason(d)) && db.images == old(db.images) &&
        log == Pushed(old(log), LogEntry(now, "watcher_add", None, Some(path), Skipped, Some(SkipReason(d))))
      ensures d.Reassociate? ==>
        o == PathUpdated(d.id) && d.id in old(db.images) &&
        db.images == old(db.images)[d.id := Updated(old(db.images)[d.id], map[Src := Str(FileUrl(path))])] &&
        log == Pushed(old(log), LogEntry(now, "watcher_add", Some(d.id), Some(path), Ok, Some("path_updated")))
      ensures d.Import? <==> o.Imported? || o.AddFailed?
      ensures o.AddFailed? ==> db.images == old(db.images) && log == old(log)
      ensures o.Imported? ==>
        o.id !in old(db.images) && o.id in db.images && db.images == old(db.images)[o.id := db.images[o.id]] &&
        db.images[o.id].src == Some(FileUrl(path)) && db.images[o.id].sourceId == d.sourceId &&
        log == Pushed(old(log), LogEntry(now, "watcher_add", Some(o.id), Some(path), Ok, Some("imported")))
    {
      d := CheckNewFile(db, host, path, vault);
      match d {
        case Reassociate(claimed) =>
          o := ReassociateLogged(db, path, claimed, now);
        case Import(sourceId, fileHash) =>
          o := ImportLogged(db, host, path, sourceId, fileHash, freshId, nowIso, enrich, now);
        case _ =>
          Log("watcher_add", None, Some(path), Skipped, Some(SkipReason(d)), now);
          o := NotImported(SkipReason(d));
      }
    }

    /** The reassociation branch of handleNewFile (SyncEngine.ts:413-417): the record takes the new path and the update is logged. */
    method ReassociateLogged(db: Db, path: string, claimed: string, now: int) returns (o: NewFileOutcome)
      requires claimed in db.images
      modifies this`log, db`images
      ensures o == PathUpdated(claimed)
      ensures db.images == old(db.images)[claimed := Updated(old(db.images)[claimed], map[Src := Str(FileUrl(path))])]
      ensures log == Pushed(old(log), LogEntry(now, "watcher_add", Some(claimed), Some(path), Ok, Some("path_updated")))
    {
      var _ := db.Update(claimed, map[Src := Str(FileUrl(path))]);
      Log("watcher_add", Some(claimed), Some(path), Ok, Some("path_updated"), now);
      o := PathUpdated(claimed);
    }

    /** The import branch of handleNewFile (SyncEngine.ts:496-517): the record is added and the import logged. */
    method ImportLogged(db: Db, host: Host.MainProcess, path: string, sourceId: string, hash: string, freshId: string,
                        nowIso: string, enrich: Enrichment, now: int) returns (o: NewFileOutcome)
      modifies this`log, db`images, host`files, host`dirs, host`allowedPaths, host`ignoredPaths, host`timers
      ensures o.Imported? || o.AddFailed?
      ensures o.AddFailed? ==> db.images == old(db.images) && log == old(log)
      ensures o.Imported? ==>
        o.id !in old(db.images) && o.id in db.images && db.images == old(db.images)[o.id := db.images[o.id]] &&
        db.images[o.id].src == Some(FileUrl(path)) && db.images[o.id].sourceId == sourceId &&
        log == Pushed(old(log), LogEntry(now, "watcher_add", Some(o.id), Some(path), Ok, Some("imported")))
    {
      var added := ImportNewFile(db, host, path, sourceId, hash, freshId, nowIso, enrich, now);
      if added.None? {
        return AddFailed;
      }
      Log("watcher_add", Some(added.value), Some(path), Ok, Some("imported"), now);
      o := Imported(added.value);
    }

    /**
     * handleSidecarChange (SyncEngine.ts:520-556) for a `.json` or `.txt` file
     * the watcher reported added: the image beside it takes up its content.
     */
    method HandleSidecarChange(db: Db, host: Host.MainProcess, path: string, now: int) returns (target: Option<string>)
      modifies this`log, db`images
      ensures target.None? <==>
        forall j :: 0 <= j < |WATCHED_IMAGE_EXTS| ==> !Tracked(old(db.images), SidecarImageUrl(path, WATCHED_IMAGE_EXTS[j]))
      ensures target.None? ==>
        db.images == old(db.images) &&
        log == Pushed(old(log), LogEntry(now, "watcher_sidecar", None, Some(path), Skipped, Some("no_matching_image")))
      ensures target.Some? ==>
        target.value in old(db.images) &&
        exists k :: FirstTrackedExt(old(db.images), path, k) &&
          old(db.images)[target.value].src == Some(SidecarImageUrl(path, WATCHED_IMAGE_EXTS[k]))
      ensures target.Some? && NoContent(host.ReadFile(path)) ==> db.images == old(db.images) && log == old(log)
      ensures var c := host.ReadFile(path);
        target.Some? && !NoContent(c) ==>
          match SidecarEffectOf(ExtOf(path), c.value)
          case ParseFailed =>
            db.images == old(db.images) &&
            log == Pushed(old(log), LogEntry(now, "watcher_sidecar", None, Some(path), Failed, Some(JSON_PARSE_ERROR)))
          case NoUpdate =>
            db.images == old(db.images) &&
            log == Pushed(old(log), LogEntry(now, "watcher_sidecar", target, Some(path), Ok, None))
          case UpdateWith(changes) =>
            db.images == old(db.images)[target.value := Updated(old(db.images)[target.value], changes)] &&
            log == Pushed(old(log), LogEntry(now, "watcher_sidecar", target, Some(path), Ok, None))
    {
      ghost var k;
      target, k := FindSidecarTarget(db, path);
      if target.None? {
        Log("watcher_sidecar", None, Some(path), Skipped, Some("no_matching_image"), now);
        return;
      }
      ApplySidecar(db, host, path, target.value, now);
    }

    /** The sidecar's content applied to the image it belongs to (SyncEngine.ts:539-555). */
    method ApplySidecar(db: Db, host: Host.MainProcess, path: string, id: string, now: int)
      requires id in db.images
      modifies this`log, db`images
      ensures NoContent(host.ReadFile(path)) ==> db.images == old(db.images) && log == old(log)
      ensures var c := host.ReadFile(path);
        !NoContent(c) ==>
          match SidecarEffectOf(ExtOf(path), c.value)
          case ParseFailed =>
            db.images == old(db.images) &&
            log == Pushed(old(log), LogEntry(now, "watcher_sidecar", None, Some(path), Failed, Some(JSON_PARSE_ERROR)))
          case NoUpdate =>
            db.images == old(db.images) &&
            log == Pushed(old(log), LogEntry(now, "watcher_sidecar", Some(id), Some(path), Ok, None))
          case UpdateWith(changes) =>
            db.images == old(db.images)[id := Updated(old(db.images)[id], changes)] &&
            log == Pushed(old(log), LogEntry(now, "watcher_sidecar", Some(id), Some(path), Ok, None))
    {
      var content := host.ReadFile(path);
      if NoContent(content) {
        return;
      }
      var effect := SidecarEffectOf(ExtOf(path), content.value);
      match effect {
        case ParseFailed =>
          Log("watcher_sidecar", None, Some(path), Failed, Some(JSON_PARSE_ERROR), now);
          return;
        case UpdateWith(changes) =>
          var _ := db.Update(id, changes);
        case NoUpdate =>
      }
      Log("watcher_sidecar", Some(id), Some(path), Ok, None, now);
    }

    /**
     * onFileEvent (SyncEngine.ts:364-392): a repeat of an event handled within
     * the time-to-live is logged and dropped; otherwise the event is
     * remembered and an added image or sidecar goes to its handler. Removals
     * and changes are not acted on. The handlers' own effects are stated by
     * HandleNewFile and HandleSidecarChange.
     */
    method OnFileEvent(db: Db, host: Host.MainProcess, e: FileEvent, vault: string, freshId: string, nowIso: string,
                       enrich: Enrichment, now: int) returns (h: Handling)
      modifies this`log, this`processed, db`images, host`files, host`dirs, host`allowedPaths, host`ignoredPaths, host`timers
      ensures h == DuplicateEvent <==> Skips(old(processed), e, now)
      ensures h == DuplicateEvent ==>
        db.images == old(db.images) && host.files == old(host.files) &&
        log == Pushed(old(log), LogEntry(now, "watcher", None, Some(e.path), Skipped, Some("duplicate_event")))
      ensures h != DuplicateEvent ==> ToLower(e.path) in processed && processed[ToLower(e.path)] == Fingerprint(e, now)
      ensures h == NewFile <==> !Skips(old(processed), e, now) && e.kind == Add && Classify(e.path) == ImageFile
      ensures h == SidecarChange <==> !Skips(old(processed), e, now) && e.kind == Add && Classify(e.path) == SidecarFile
      ensures h == Ignored ==> db.images == old(db.images) && host.files == old(host.files) && log == old(log)
    {
      var skip := ShouldSkipEvent(e, now);
      if skip {
        Log("watcher", None, Some(e.path), Skipped, Some("duplicate_event"), now);
        return DuplicateEvent;
      }
      MarkEventProcessed(e, now);
      h := Dispatch(db, host, e, vault, freshId, nowIso, enrich, now);
    }

    /** The handler the watcher hands a fresh event to (SyncEngine.ts:377-391). */
    method Dispatch(db: Db, host: Host.MainProcess, e: FileEvent, vault: string, freshId: string, nowIso: string,
                    enrich: Enrichment, now: int) returns (h: Handling)
      modifies this`log, db`images, host`files, host`dirs, host`allowedPaths, host`ignoredPaths, host`timers
      ensures h != DuplicateEvent
      ensures h == NewFile <==> e.kind == Add && Classify(e.path) == ImageFile
      ensures h == SidecarChange <==> e.kind == Add && Classify(e.path) == SidecarFile
      ensures h == Ignored ==> db.images == old(db.images) && host.files == old(host.files) && log == old(log)
    {
      var kind := Classify(e.path);
      if e.kind == Add && kind == ImageFile {
        var _, _ := HandleNewFile(db, host, e.path, vault, freshId, nowIso, enrich, now);
        h := NewFile;
      } else if e.kind == Add && kind == SidecarFile {
        var _ := HandleSidecarChange(db, host, e.path, now);
        h := SidecarChange;
      } else {
        h := Ignored;
      }
    }

    /**
     * reconcile (SyncEngine.ts:558-606): without the desktop API or a vault it
     * does nothing; otherwise every file-backed record whose file no longer
     * exists is deleted and logged, and the pass logs its completion. The
     * `updated` and `imported` counters are never raised. `order` is the order
     * the records were visited in.
     */
    method Reconcile(db: Db, host: Host.MainProcess, hasApi: bool, vault: string, now: int)
      returns (updated: nat, orphaned: nat, imported: nat, ghost order: seq<string>)
      modifies this`log, db`images
      ensures updated == 0 && imported == 0
      ensures !hasApi || vault == "" ==> orphaned == 0 && db.images == old(db.images) && log == old(log)
      ensures hasApi && vault != "" ==>
        db.images == old(db.images) - Orphans(old(db.images), host.files, host.dirs) && orphaned == |Orphans(old(db.images), host.files, host.dirs)|
      ensures hasApi && vault != "" ==>
        (forall id :: id in order <==> id in Orphans(old(db.images), host.files, host.dirs))
      ensures hasApi && vault != "" ==>
        (forall id :: id in order ==> id in old(db.images) && FileBacked(old(db.images)[id])) &&
        log == Pushed(PushedAll(old(log), RemovalLog(old(db.images), order, now)),
                      LogEntry(now, "reconcile_complete", None, None, Ok, None))
      ensures old(Valid()) ==> Valid()
    {
      updated, orphaned, imported, order := 0, 0, 0, [];
      if !hasApi || vault == "" {
        return;
      }
      ghost var start := log;
      ghost var images := db.images;
      orphaned, order := RemoveOrphans(db, host, now);
      if |start| <= MAX_LOG_ENTRIES {
        PushedAllBounded(start, RemovalLog(images, order, now));
      }
      Log("reconcile_complete", None, None, Ok, None, now);
    }

    /** The loop of reconcile (SyncEngine.ts:574-601) over the file-backed records. */
    method RemoveOrphans(db: Db, host: Host.MainProcess, now: int) returns (orphaned: nat, ghost order: seq<string>)
      modifies this`log, db`images
      ensures forall id :: id in order ==> id in old(db.images) && FileBacked(old(db.images)[id])
      ensures db.images == old(db.images) - Orphans(old(db.images), host.files, host.dirs)
      ensures orphaned == |Orphans(old(db.images), host.files, host.dirs)|
      ensures forall id :: id in order <==> id in Orphans(old(db.images), host.files, host.dirs)
      ensures log == PushedAll(old(log), RemovalLog(old(db.images), order, now))
    {
      orphaned, order := 0, [];
      var dbImages := db.images;
      var todo := set id | id in dbImages && FileBacked(dbImages[id]);
      ghost var orphans := Orphans(dbImages, host.files, host.dirs);
      ghost var removed: set<string> := {};
      ghost var start := log;
      while todo != {}
        invariant todo <= dbImages.Keys
        invariant forall id :: id in todo ==> FileBacked(dbImages[id])
        invariant removed !! todo
        invariant removed + (orphans * todo) == orphans
        invariant orphaned == |removed|
        invariant forall id :: id in order <==> id in removed
        invariant forall id :: id in order ==> id in dbImages && FileBacked(dbImages[id])
        invariant db.images == dbImages - removed
        invariant log == PushedAll(start, RemovalLog(dbImages, order, now))
        decreases |todo|
      {
        var id :| id in todo;
        var gone := ReconcileOne(db, host, dbImages, id, now, start, order);
        OrphanStep(orphans, removed, todo, id, gone);
        if gone {
          orphaned := orphaned + 1;
          DeleteStep(dbImages, removed, id);
          order := order + [id];
          removed := removed + {id};
        }
        todo := todo - {id};
      }
      OrphansDone(orphans, removed, todo);
    }

    /**
     * One record of the reconcile loop (SyncEngine.ts:577-601): deleted and
     * logged when its file is gone. `start` and `order` are the log before the
     * loop and the records removed so far.
     */
    method ReconcileOne(db: Db, host: Host.MainProcess, dbImages: map<string, ImageRecord>, id: string, now: int,
                        ghost start: seq<LogEntry>, ghost order: seq<string>)
      returns (gone: bool)
      requires id in dbImages && FileBacked(dbImages[id])
      requires forall x :: x in order ==> x in dbImages && FileBacked(dbImages[x])
      requires log == PushedAll(start, RemovalLog(dbImages, order, now))
      modifies this`log, db`images
      ensures gone <==> id in Orphans(dbImages, host.files, host.dirs)
      ensures gone ==> db.images == old(db.images) - {id} && log == PushedAll(start, RemovalLog(dbImages, order + [id], now))
      ensures !gone ==> db.images == old(db.images) && log == old(log)
    {
      var fsPath := FsPath(dbImages[id]);
      var present := host.Exists(fsPath);
      gone := !present;
      if gone {
        db.Delete(id);
        Log("reconcile", Some(id), Some(fsPath), Ok, Some("orphan_removed"), now);
        RemovalLogStep(start, dbImages, order, id, now);
      }
    }

    /** getSyncLog (SyncEngine.ts:153-155): a copy, which later pushes do not change. */
    method GetSyncLog() returns (copy: seq<LogEntry>)
      ensures copy == log
    {
      copy := log;
    }
  }
}
