/**
 * Bringing images into the library (src/context.tsx): linking a folder as a
 * vault (addLocalFolder, with its overlap check), importing the folder's files
 * once the preview was confirmed (confirmImport), and importing dropped files
 * (uploadFiles). Both imports sort their candidates into new entries and
 * duplicates by content hash; a batch with duplicates is handed to the
 * duplicate dialog (module Duplicates) instead of being stored.
 */
module Imports {
  import opened Wrappers
  import opened Strings
  import opened Model
  import opened Store
  import opened AppState
  import Host
  import Utils
  import Toaster
  import ImageService
  import Duplicates

  // ---------------------------------------------------------------- overlap check

  /** `p.replace(/\\/g, '/').toLowerCase()` */
  function FolderKey(p: string): string
  {
    ToLower(ReplaceChar(p, '\\', '/'))
  }

  /** The path with one trailing '/', added when missing. */
  function WithSlash(s: string): (r: string)
    ensures EndsWith(r, "/") && StartsWith(r, s)
  {
    if EndsWith(s, "/") then s else s + "/"
  }

  /** The overlap test of addLocalFolder (context.tsx:796-815) for an existing path and a new folder. */
  predicate PathsOverlap(existing: string, folder: string)
  {
    var e, n := FolderKey(existing), FolderKey(folder);
    n == e || StartsWith(WithSlash(n), WithSlash(e)) || StartsWith(WithSlash(e), WithSlash(n))
  }

  /** A source without a path (or with an empty one) never overlaps. */
  predicate SourceOverlaps(s: LibrarySource, folder: string)
  {
    s.path.Some? && s.path.value != "" && PathsOverlap(s.path.value, folder)
  }

  /** `sources.find(...)`: the first source the new folder overlaps. */
  function FindOverlap(sources: seq<LibrarySource>, folder: string): (r: Option<LibrarySource>)
    ensures r.None? <==> forall i :: 0 <= i < |sources| ==> !SourceOverlaps(sources[i], folder)
    ensures r.Some? ==> r.value in sources && SourceOverlaps(r.value, folder)
  {
    if sources == [] then None
    else if SourceOverlaps(sources[0], folder) then Some(sources[0])
    else FindOverlap(sources[1..], folder)
  }

  lemma StartsWithTrans(a: string, b: string, c: string)
    requires StartsWith(a, b) && StartsWith(b, c)
    ensures StartsWith(a, c)
  {
    assert a[..|c|] == a[..|b|][..|c|];
  }

  /** A folder inside an existing vault, or one holding it, overlaps it, whichever of the two is named first. */
  lemma NestedOverlaps(outer: string, inner: string)
    requires StartsWith(FolderKey(inner), WithSlash(FolderKey(outer)))
    ensures PathsOverlap(outer, inner) && PathsOverlap(inner, outer)
  {
    StartsWithTrans(WithSlash(FolderKey(inner)), FolderKey(inner), WithSlash(FolderKey(outer)));
  }

  /** The test ignores letter case and the kind of slash. */
  lemma SameFolderOverlaps(a: string, b: string)
    requires FolderKey(a) == FolderKey(b)
    ensures PathsOverlap(a, b)
  {
  }

  /** A sibling whose name merely extends the vault's name is not inside it. */
  lemma SiblingDoesNotOverlap()
    ensures !PathsOverlap("/vaultA", "/vaultA-backup")
  {
    var e, n := FolderKey("/vaultA"), FolderKey("/vaultA-backup");
    assert e == "/vaulta";
    assert n == "/vaulta-backup";
    assert WithSlash(n)[7] == '-';
    assert WithSlash(e)[7] == '/';
  }

  /** Case and backslashes do not hide a nested folder. */
  lemma NestedSample()
    ensures PathsOverlap("/VaultA", "\\vaulta\\sub")
  {
    var e, n := FolderKey("/VaultA"), FolderKey("\\vaulta\\sub");
    assert e == "/vaulta";
    assert n == "/vaulta/sub";
    NestedOverlaps("/VaultA", "\\vaulta\\sub");
  }

  // ---------------------------------------------------------------- addLocalFolder

  predicate IsSeparator(c: char) { c == '/' || c == '\\' }

  /** `p.split(/[\\/]/).pop()`: what follows the last slash or backslash. */
  function LastSegment(p: string): (r: string)
    ensures forall c :: c in r ==> !IsSeparator(c)
    ensures EndsWith(p, r)
    ensures |r| < |p| ==> IsSeparator(p[|p| - |r| - 1])
  {
    if p == [] || IsSeparator(p[|p| - 1]) then []
    else
      var r := LastSegment(p[..|p| - 1]) + [p[|p| - 1]];
      assert p[|p| - |r|..] == p[..|p| - 1][|p| - |r|..] + [p[|p| - 1]];
      r
  }

  /** `a || b` on strings. */
  function OrElse(a: string, b: string): (r: string)
    ensures r == a || r == b
    ensures a != "" ==> r == a
  {
    if a != "" then a else b
  }

  /** The folder chosen and linked but not yet imported (`pendingImport`, desktop form). */
  datatype PendingImport = PendingImport(files: seq<Host.ScannedFile>, folderName: string, electronPath: Option<string>)

  /**
   * select-folder (main.cjs:180-218) once the dialog came back with `chosen`
   * (None when it was cancelled): the folder becomes allowed and its image
   * files are listed.
   */
  method SelectFolder(host: Host.MainProcess, chosen: Option<string>) returns (r: Option<(string, seq<Host.ScannedFile>)>)
    modifies host`allowedPaths
    ensures chosen.None? ==> r.None? && host.allowedPaths == old(host.allowedPaths)
    ensures chosen.Some? ==>
      && r.Some? && r.value.0 == chosen.value
      && Host.FullPaths(r.value.1) == old(host.ImagesIn(chosen.value)) && Host.DistinctPaths(r.value.1)
      && host.allowedPaths == old(host.allowedPaths) + (if chosen.value != "" then {chosen.value} else {})
  {
    if chosen.None? {
      return None;
    }
    host.AddAllowedPath(chosen.value);
    var files := Host.ListFiles(host.ImagesIn(chosen.value));
    r := Some((chosen.value, files));
  }

  /** Distinct paths: the scan lists as many files as the folder holds images. */
  lemma {:induction false} DistinctCount(fs: seq<Host.ScannedFile>)
    requires Host.DistinctPaths(fs)
    ensures |Host.FullPaths(fs)| == |fs|
    decreases |fs|
  {
    if fs != [] {
      var init, f := fs[..|fs| - 1], fs[|fs| - 1];
      assert fs == init + [f];
      assert Host.DistinctPaths(init);
      DistinctCount(init);
      Host.FullPathsAppend(init, f);
      forall g | g in init
        ensures g.fullPath != f.fullPath
      {
        var i :| 0 <= i < |init| && init[i] == g;
        assert fs[i] == g;
      }
    }
  }

  /** The source a folder linked without preview becomes. */
  function NewFolderSource(id: string, folder: string, count: nat): LibrarySource
  {
    LibrarySource(id, OrElse(LastSegment(folder), "Local Vault"), LocalFolder, Some(folder), count)
  }

  /** The no-preview branch of addLocalFolder (context.tsx:818-831): the source is stored, listed and allowed. */
  method CreateFolderSource(db: Db, ui: Ui, host: Host.MainProcess, source: LibrarySource) returns (notice: Notice)
    requires source.path.Some?
    modifies db`sources, ui`sources, host`allowedPaths
    ensures ui.sources == old(ui.sources) + [source]
    ensures !old(db.HasSource(source.id)) ==> db.sources == old(db.sources) + [source]
    ensures notice == Notice(Toaster.Success, "Vault \"" + source.name + "\" created")
    ensures host.allowedPaths == old(host.allowedPaths) + (if source.path.value != "" then {source.path.value} else {})
  {
    db.SourcesPut(source);
    ui.sources := ui.sources + [source];
    notice := Notice(Toaster.Success, "Vault \"" + source.name + "\" created");
    host.AddToAllowedPaths([source.path.value]);
    assert (set p | p in [source.path.value] && p != "") == (if source.path.value != "" then {source.path.value} else {});
  }

  class Importer {
    var pendingImport: Option<PendingImport>

    constructor ()
      ensures pendingImport == None
    {
      pendingImport := None;
    }

    /**
     * addLocalFolder in the desktop app (context.tsx:777-840). A cancelled
     * dialog changes nothing. A folder that overlaps an existing source is
     * refused with a warning naming it. Otherwise the folder either becomes a
     * source right away (with the number of images found) or waits in
     * `pendingImport` for the preview.
     */
    method AddLocalFolder(db: Db, ui: Ui, host: Host.MainProcess, chosen: Option<string>, skipPreview: bool,
                          freshId: string)
      returns (notice: Option<Notice>)
      modifies this`pendingImport, db`sources, ui`sources, host`allowedPaths
      ensures chosen.None? ==>
        notice.None? && pendingImport == old(pendingImport) && db.sources == old(db.sources) &&
        ui.sources == old(ui.sources) && host.allowedPaths == old(host.allowedPaths)
      ensures chosen.Some? && FindOverlap(old(ui.sources), chosen.value).Some? ==>
        notice == Some(Notice(Toaster.Warning, "Folder overlaps with existing vault: " +
                                               FindOverlap(old(ui.sources), chosen.value).value.name)) &&
        pendingImport == old(pendingImport) && db.sources == old(db.sources) && ui.sources == old(ui.sources)
      ensures chosen.Some? && FindOverlap(old(ui.sources), chosen.value).None? && skipPreview ==>
        var s := NewFolderSource(freshId, chosen.value, |old(host.ImagesIn(chosen.value))|);
        && ui.sources == old(ui.sources) + [s]
        && (!old(db.HasSource(freshId)) ==> db.sources == old(db.sources) + [s])
        && notice == Some(Notice(Toaster.Success, "Vault \"" + s.name + "\" created"))
        && pendingImport == old(pendingImport)
      ensures chosen.Some? && FindOverlap(old(ui.sources), chosen.value).None? && !skipPreview ==>
        && notice.None? && db.sources == old(db.sources) && ui.sources == old(ui.sources)
        && pendingImport.Some?
        && pendingImport.value.folderName == OrElse(LastSegment(chosen.value), "Local Vault")
        && pendingImport.value.electronPath == chosen
        && Host.FullPaths(pendingImport.value.files) == old(host.ImagesIn(chosen.value))
      ensures chosen.Some? ==>
        host.allowedPaths == old(host.allowedPaths) + (if chosen.value != "" then {chosen.value} else {})
    {
      notice := None;
      var picked := SelectFolder(host, chosen);
      if picked.None? {
        return;
      }
      var (folderPath, scanned) := picked.value;
      var folderName := OrElse(LastSegment(folderPath), "Local Vault");
      var overlap := FindOverlap(ui.sources, folderPath);
      if overlap.Some? {
        return Some(Notice(Toaster.Warning, "Folder overlaps with existing vault: " + overlap.value.name));
      }
      if skipPreview {
        DistinctCount(scanned);
        var n := CreateFolderSource(db, ui, host, NewFolderSource(freshId, folderPath, |scanned|));
        return Some(n);
      }
      pendingImport := Some(PendingImport(scanned, folderName, Some(folderPath)));
    }

    /**
     * confirmImport (context.tsx:864-1030), desktop form. A linked folder
     * becomes a source unless one with that path exists. Every image file of
     * the pending list becomes a candidate; the candidates are sorted into new
     * entries and duplicates (see `Bucketed`). With duplicates the batch goes
     * to the duplicate dialog and nothing is stored; otherwise the new entries
     * are added. The pending import is cleared on every path.
     */
    method ConfirmImport(db: Db, host: Host.MainProcess, dups: Duplicates.DuplicateState, inputs: ImportInputs,
                         freshSourceId: string)
      returns (notices: seq<Notice>)
      modifies this`pendingImport, db`images, db`sources, dups`pending
      ensures pendingImport == None
      ensures old(pendingImport).None? ==>
        notices == [] && db.images == old(db.images) && db.sources == old(db.sources) && dups.pending == old(dups.pending)
      ensures old(pendingImport).Some? ==>
        db.sources == SourcesAfterLink(old(db.sources), old(pendingImport).value, freshSourceId)
      ensures old(pendingImport).Some? && old(ConfirmBuckets(db.images, db.sources, host, pendingImport.value, inputs, freshSourceId)).dupes != [] ==>
        var p := old(pendingImport).value;
        var b := old(ConfirmBuckets(db.images, db.sources, host, p, inputs, freshSourceId));
        && db.images == old(db.images)
        && dups.pending == Some(Duplicates.Pending(b.entries, b.dupes, OrElse(p.folderName, "Linked Folder")))
        && notices == [ProcessingNotice(|p.files|)]
      ensures old(pendingImport).Some? && old(ConfirmBuckets(db.images, db.sources, host, pendingImport.value, inputs, freshSourceId)).dupes == [] ==>
        var p := old(pendingImport).value;
        var b := old(ConfirmBuckets(db.images, db.sources, host, p, inputs, freshSourceId));
        && dups.pending == old(dups.pending)
        && db.images == BulkAdded(old(db.images), b.entries)
        && notices == [ProcessingNotice(|p.files|), ImportOutcome(b.entries, BulkFailures(old(db.images), b.entries))]
    {
      notices := [];
      if pendingImport.None? {
        return;
      }
      var p := pendingImport.value;
      var sourceId := LinkSource(db, p, freshSourceId);
      notices := [ProcessingNotice(|p.files|)];
      var items := ConfirmItems(host, p.files, sourceId, inputs, |p.files|);
      var b := Classify(db, items, false);
      if |b.dupes| > 0 {
        dups.pending := Some(Duplicates.Pending(b.entries, b.dupes, OrElse(p.folderName, "Linked Folder")));
      } else {
        var failures := db.BulkAdd(b.entries);
        notices := notices + [ImportOutcome(b.entries, failures)];
      }
      pendingImport := None;
    }
  }

  // ---------------------------------------------------------------- confirmImport

  function ProcessingNotice(n: nat): Notice
  {
    Notice(Toaster.Info, "Processing " + NatToString(n) + " items...")
  }

  /** The closing notice: a rejected bulkAdd lands in the catch block. */
  function ImportOutcome(entries: seq<ImageRecord>, failures: nat): Notice
  {
    if entries == [] then Notice(Toaster.Info, "No new images to import.")
    else if failures > 0 then Notice(Toaster.Error, "Import failed. Please try again.")
    else Notice(Toaster.Success, "Imported " + NatToString(|entries|) + " images.")
  }

  predicate Linked(p: PendingImport) { p.electronPath.Some? && p.electronPath.value != "" }

  /** `db.sources.filter(s => s.path === electronPath).first()` */
  function FirstWithPath(ss: seq<LibrarySource>, path: string): (r: Option<LibrarySource>)
    ensures r.Some? ==> r.value in ss && r.value.path == Some(path)
    ensures r.None? <==> forall i :: 0 <= i < |ss| ==> ss[i].path != Some(path)
  {
    if ss == [] then None
    else if ss[0].path == Some(path) then Some(ss[0])
    else FirstWithPath(ss[1..], path)
  }

  /** The name a newly linked folder gets. */
  function LinkedName(p: PendingImport): string
    requires Linked(p)
  {
    OrElse(p.folderName, OrElse(LastSegment(p.electronPath.value), "Linked Folder"))
  }

  /** The source the imported files get: 'internal', an existing source with that path, or the new one. */
  function ImportSourceId(ss: seq<LibrarySource>, p: PendingImport, freshId: string): (sid: string)
    ensures !Linked(p) ==> sid == INTERNAL
    ensures Linked(p) && FirstWithPath(ss, p.electronPath.value).None? ==> sid == freshId
    ensures Linked(p) && FirstWithPath(ss, p.electronPath.value).Some? ==>
      exists i :: 0 <= i < |ss| && ss[i].id == sid && ss[i].path == p.electronPath
  {
    if !Linked(p) then INTERNAL
    else match FirstWithPath(ss, p.electronPath.value)
      case Some(s) => (ghost var i :| 0 <= i < |ss| && ss[i] == s; s.id)
      case None => freshId
  }

  /** The sources table after the linking step: a new folder source is added when its id is free. */
  function SourcesAfterLink(ss: seq<LibrarySource>, p: PendingImport, freshId: string): seq<LibrarySource>
  {
    if Linked(p) && FirstWithPath(ss, p.electronPath.value).None? &&
       !(exists i :: 0 <= i < |ss| && ss[i].id == freshId)
    then ss + [LibrarySource(freshId, LinkedName(p), LocalFolder, p.electronPath, 0)]
    else ss
  }

  /** The source-creation step of confirmImport (context.tsx:871-891); a failed add is only logged. */
  method LinkSource(db: Db, p: PendingImport, freshId: string) returns (sourceId: string)
    modifies db`sources
    ensures sourceId == ImportSourceId(old(db.sources), p, freshId)
    ensures db.sources == SourcesAfterLink(old(db.sources), p, freshId)
  {
    sourceId := INTERNAL;
    if Linked(p) {
      var existing := FirstWithPath(db.sources, p.electronPath.value);
      if existing.Some? {
        sourceId := existing.value.id;
      } else {
        sourceId := freshId;
        var _ := db.SourcesAdd(LibrarySource(freshId, LinkedName(p), LocalFolder, p.electronPath, 0));
      }
    }
  }

  /**
   * What the model takes as given for a confirmed import: `newId(k)` is the id
   * generateId gives the candidate from file k, `dateOf(p)` the modification time
   * the scan reported for p, `extracted(p)` the metadata read from p's `.txt`
   * sidecar and EXIF data, and `nowIso` the current time.
   */
  datatype ImportInputs = ImportInputs(newId: (nat -> string), dateOf: (string -> string), extracted: (string -> Patch),
                                       nowIso: string)

  /** `fileName.substring(fileName.lastIndexOf('.')).toLowerCase()` is one of the image extensions. */
  predicate IsImageName(name: string)
  {
    ToLower(From(name, LastIndexOf(name, '.'))) in Host.IMAGE_EXTENSIONS
  }

  /** `res.success && res.data ? res.data : ""` */
  function HashOf(r: Result<string>): string
  {
    if r.Success? then r.value else ""
  }

  /** The candidate confirmImport builds from a scanned file: createBaseImage, then the extracted metadata over it. */
  function ConfirmCandidate(f: Host.ScannedFile, hash: string, sourceId: string, inputs: ImportInputs, k: nat): ImageRecord
  {
    var baseName := Before(f.name, LastIndexOf(f.name, '.'));
    var overrides := map[SourceId := Str(sourceId), Title := Str(ReplaceChar(baseName, '_', ' ')),
                         Src := Str(FILE_SCHEME + ReplaceChar(f.fullPath, '\\', '/')), BlobData := Undefined,
                         Hash := Str(hash), Date := Str(inputs.dateOf(f.fullPath))];
    Apply(ImageService.CreateBaseImage(overrides, inputs.newId(k), inputs.nowIso), inputs.extracted(f.fullPath))
  }

  /** The candidates from the first `n` files: one per image file, in file order, hashed by calculate-hash. */
  function ConfirmItems(host: Host.MainProcess, files: seq<Host.ScannedFile>, sourceId: string, inputs: ImportInputs, n: nat)
    : (items: seq<Item>)
    reads host`files, host`allowedPaths
    requires n <= |files|
    ensures |items| <= n
  {
    if n == 0 then []
    else
      var k := n - 1;
      var hash := HashOf(host.CalculateHash(files[k].fullPath));
      ConfirmItems(host, files, sourceId, inputs, k) +
      (if IsImageName(files[k].name) then [Item(hash, ConfirmCandidate(files[k], hash, sourceId, inputs, k))] else [])
  }

  /** The sorted candidates of a confirmed import, as the store and host stand before it. */
  function ConfirmBuckets(stored: map<string, ImageRecord>, ss: seq<LibrarySource>, host: Host.MainProcess,
                          p: PendingImport, inputs: ImportInputs, freshSourceId: string): Buckets
    reads host`files, host`allowedPaths
  {
    var sid := ImportSourceId(ss, p, freshSourceId);
    Bucketed(stored, ConfirmItems(host, p.files, sid, inputs, |p.files|), false)
  }

  // ---------------------------------------------------------------- duplicate bucketing

  /** One candidate: the hash it was given ("" when none) and its record. */
  datatype Item = Item(hash: string, rec: ImageRecord)

  /** `newEntries`, `duplicates` and `currentBatchHashes` as the import loops build them. */
  datatype Buckets = Buckets(entries: seq<ImageRecord>, dupes: seq<ImageRecord>, seen: set<string>)

  /** `db.images.where('hash').equals(hash).first()` finds something. */
  predicate HashStored(stored: map<string, ImageRecord>, h: string)
  {
    exists id :: id in stored && stored[id].hash == Some(h)
  }

  /** `isDupe` */
  predicate IsDupe(stored: map<string, ImageRecord>, seen: set<string>, h: string)
  {
    h != "" && (HashStored(stored, h) || h in seen)
  }

  /** One candidate sorted in; `mark` sets `isDuplicate` on a duplicate (uploadFiles does, confirmImport does not). */
  function Step(stored: map<string, ImageRecord>, b: Buckets, it: Item, mark: bool): Buckets
  {
    var dupe := IsDupe(stored, b.seen, it.hash);
    Buckets(if dupe then b.entries else b.entries + [it.rec],
            if dupe then b.dupes + [if mark then it.rec.(isDuplicate := true) else it.rec] else b.dupes,
            if it.hash != "" then b.seen + {it.hash} else b.seen)
  }

  /** The buckets after the candidates `items`, in order. */
  function Bucketed(stored: map<string, ImageRecord>, items: seq<Item>, mark: bool): (b: Buckets)
    ensures |b.entries| + |b.dupes| == |items|
  {
    if items == [] then Buckets([], [], {})
    else Step(stored, Bucketed(stored, items[..|items| - 1], mark), items[|items| - 1], mark)
  }

  lemma BucketedSnoc(stored: map<string, ImageRecord>, items: seq<Item>, it: Item, mark: bool)
    ensures Bucketed(stored, items + [it], mark) == Step(stored, Bucketed(stored, items, mark), it, mark)
  {
    assert (items + [it])[..|items|] == items;
  }

  /** The loop both imports run over their candidates (context.tsx:977-983, 1117-1121); the store is only read. */
  method Classify(db: Db, items: seq<Item>, mark: bool) returns (b: Buckets)
    ensures b == Bucketed(db.images, items, mark)
  {
    b := Buckets([], [], {});
    var i := 0;
    while i < |items|
      invariant 0 <= i <= |items|
      invariant b == Bucketed(db.images, items[..i], mark)
    {
      BucketedSnoc(db.images, items[..i], items[i], mark);
      assert items[..i + 1] == items[..i] + [items[i]];
      b := Step(db.images, b, items[i], mark);
      i := i + 1;
    }
    assert items[..i] == items;
  }

  /**
   * The rule the loop implements, stated without the running hash set: a
   * candidate is a duplicate iff its hash is non-empty and is either stored
   * already or the hash of an earlier candidate of the same batch.
   */
  predicate DupeAt(stored: map<string, ImageRecord>, items: seq<Item>, k: nat)
    requires k < |items|
  {
    items[k].hash != "" &&
    (HashStored(stored, items[k].hash) || exists j :: 0 <= j < k && items[j].hash == items[k].hash)
  }

  /** The new entries by that rule: the candidates that are not duplicates, in order. */
  function EntriesRef(stored: map<string, ImageRecord>, items: seq<Item>): seq<ImageRecord>
  {
    if items == [] then []
    else EntriesRef(stored, items[..|items| - 1]) +
         (if DupeAt(stored, items, |items| - 1) then [] else [items[|items| - 1].rec])
  }

  /** The duplicates by that rule, in order, marked when `mark` is set. */
  function DupesRef(stored: map<string, ImageRecord>, items: seq<Item>, mark: bool): seq<ImageRecord>
  {
    if items == [] then []
    else
      var last := items[|items| - 1].rec;
      DupesRef(stored, items[..|items| - 1], mark) +
      (if DupeAt(stored, items, |items| - 1) then [if mark then last.(isDuplicate := true) else last] else [])
  }

  /** The non-empty hashes among the candidates. */
  function SeenHashes(items: seq<Item>): set<string>
  {
    set k | 0 <= k < |items| && items[k].hash != "" :: items[k].hash
  }

  lemma DupeAtLast(stored: map<string, ImageRecord>, init: seq<Item>, it: Item)
    ensures DupeAt(stored, init + [it], |init|) <==> IsDupe(stored, SeenHashes(init), it.hash)
  {
    var items := init + [it];
    if it.hash != "" && it.hash in SeenHashes(init) {
      var k :| 0 <= k < |init| && init[k].hash != "" && init[k].hash == it.hash;
      assert items[k].hash == items[|init|].hash;
    }
    if exists j :: 0 <= j < |init| && items[j].hash == items[|init|].hash {
      var j :| 0 <= j < |init| && items[j].hash == items[|init|].hash;
      assert init[j] == items[j];
      if it.hash != "" {
        assert it.hash in SeenHashes(init);
      }
    }
  }

  lemma DupeAtPrefix(stored: map<string, ImageRecord>, init: seq<Item>, it: Item, k: nat)
    requires k < |init|
    ensures DupeAt(stored, init + [it], k) == DupeAt(stored, init, k)
  {
    var items := init + [it];
    assert forall j :: 0 <= j <= k ==> items[j] == init[j];
  }

  lemma SeenSnoc(init: seq<Item>, it: Item)
    ensures SeenHashes(init + [it]) == SeenHashes(init) + (if it.hash != "" then {it.hash} else {})
  {
    var items := init + [it];
    forall h | h in SeenHashes(init)
      ensures h in SeenHashes(items)
    {
      var k :| 0 <= k < |init| && init[k].hash != "" && init[k].hash == h;
      assert items[k] == init[k];
    }
    if it.hash != "" {
      assert items[|init|].hash == it.hash;
    }
  }

  lemma {:induction false} EntriesRefSnoc(stored: map<string, ImageRecord>, init: seq<Item>, it: Item)
    ensures EntriesRef(stored, init + [it]) ==
      EntriesRef(stored, init) + (if IsDupe(stored, SeenHashes(init), it.hash) then [] else [it.rec])
  {
    assert (init + [it])[..|init|] == init;
    DupeAtLast(stored, init, it);
  }

  lemma {:induction false} DupesRefSnoc(stored: map<string, ImageRecord>, init: seq<Item>, it: Item, mark: bool)
    ensures DupesRef(stored, init + [it], mark) ==
      DupesRef(stored, init, mark) +
      (if IsDupe(stored, SeenHashes(init), it.hash) then [if mark then it.rec.(isDuplicate := true) else it.rec] else [])
  {
    assert (init + [it])[..|init|] == init;
    DupeAtLast(stored, init, it);
  }

  /** The loop's buckets are those of the rule: its running hash set holds exactly the hashes seen so far. */
  lemma {:induction false} BucketedIsRule(stored: map<string, ImageRecord>, items: seq<Item>, mark: bool)
    ensures Bucketed(stored, items, mark) == Buckets(EntriesRef(stored, items), DupesRef(stored, items, mark), SeenHashes(items))
    decreases |items|
  {
    if items == [] {
      assert SeenHashes(items) == {};
    } else {
      var init, it := items[..|items| - 1], items[|items| - 1];
      assert items == init + [it];
      BucketedIsRule(stored, init, mark);
      SeenSnoc(init, it);
      EntriesRefSnoc(stored, init, it);
      DupesRefSnoc(stored, init, it, mark);
    }
  }

  /** A candidate whose hash is empty is never a duplicate; one whose hash is stored always is. */
  lemma DupeCases(stored: map<string, ImageRecord>, items: seq<Item>, k: nat)
    requires k < |items|
    ensures items[k].hash == "" ==> !DupeAt(stored, items, k)
    ensures items[k].hash != "" && HashStored(stored, items[k].hash) ==> DupeAt(stored, items, k)
  {
  }

  // ---------------------------------------------------------------- uploadFiles

  /**
   * A dropped file: its name, its bytes and MIME type, its `lastModified` time
   * as ISO text, its path on disk ("" when the browser gives none) and the hash
   * calculateImageHash gives it.
   */
  datatype UploadFile = UploadFile(name: string, content: Blob, lastModified: string, path: string, hash: string)

  /** `fileGroups[baseName]`: the last image file and the last text file with that base name. */
  datatype Group = Group(image: Option<UploadFile>, text: Option<UploadFile>)

  predicate Hidden(f: UploadFile) { StartsWith(f.name, ".") }

  predicate IsImageFile(f: UploadFile) { StartsWith(f.content.mime, "image/") }

  /** `file.name.substring(0, file.name.lastIndexOf('.')) || file.name` */
  function GroupKey(name: string): string
  {
    OrElse(Before(name, LastIndexOf(name, '.')), name)
  }

  /** The group keys in the order they were first seen, and the groups (context.tsx:1039-1050). */
  function Grouped(files: seq<UploadFile>): (r: (seq<string>, map<string, Group>))
    ensures forall k :: k in r.0 <==> k in r.1
    ensures forall i, j :: 0 <= i < j < |r.0| ==> r.0[i] != r.0[j]
    ensures forall k :: k in r.0 <==> exists i :: 0 <= i < |files| && !Hidden(files[i]) && GroupKey(files[i].name) == k
  {
    if files == [] then ([], map[])
    else
      var init, f := files[..|files| - 1], files[|files| - 1];
      var (keys, groups) := Grouped(init);
      if Hidden(f) then
        assert forall i :: 0 <= i < |init| ==> files[i] == init[i];
        (keys, groups)
      else
        var key := GroupKey(f.name);
        var g := if key in groups then groups[key] else Group(None, None);
        var g' := if IsImageFile(f) then g.(image := Some(f))
                  else if f.content.mime == "text/plain" then g.(text := Some(f)) else g;
        assert forall i :: 0 <= i < |init| ==> files[i] == init[i];
        assert files[|files| - 1] == f;
        (if key in groups then keys else keys + [key], groups[key := g'])
  }

  /** The last visible image file with that key, if any: the image the group ends up with. */
  function LastImage(files: seq<UploadFile>, key: string): Option<UploadFile>
  {
    if files == [] then None
    else
      var f := files[|files| - 1];
      if !Hidden(f) && GroupKey(f.name) == key && IsImageFile(f) then Some(f)
      else LastImage(files[..|files| - 1], key)
  }

  /** Each group's image is the last image file of that base name: a later one replaces an earlier one. */
  lemma {:induction false} GroupedImage(files: seq<UploadFile>, key: string)
    requires key in Grouped(files).1
    ensures Grouped(files).1[key].image == LastImage(files, key)
    decreases |files|
  {
    var init, f := files[..|files| - 1], files[|files| - 1];
    var groups := Grouped(init).1;
    if Hidden(f) || GroupKey(f.name) != key {
      GroupedImage(init, key);
    } else if !IsImageFile(f) && key in groups {
      GroupedImage(init, key);
    } else if !IsImageFile(f) {
      NoImageYet(init, key);
    }
  }

  lemma {:induction false} NoImageYet(files: seq<UploadFile>, key: string)
    requires key !in Grouped(files).1
    ensures LastImage(files, key).None?
    decreases |files|
  {
    if files != [] {
      var init, f := files[..|files| - 1], files[|files| - 1];
      assert f == files[|files| - 1];
      NoImageYet(init, key);
    }
  }

  /** `processCount`: the visible image files (a base name seen twice counts twice). */
  function ProcessCount(files: seq<UploadFile>): nat
  {
    if files == [] then 0
    else ProcessCount(files[..|files| - 1]) + (if !Hidden(files[|files| - 1]) && IsImageFile(files[|files| - 1]) then 1 else 0)
  }

  /** No image among the files: no group has one. */
  lemma {:induction false} NoCountNoImage(files: seq<UploadFile>, key: string)
    requires ProcessCount(files) == 0
    ensures LastImage(files, key).None?
    decreases |files|
  {
    if files != [] {
      NoCountNoImage(files[..|files| - 1], key);
    }
  }

  /** What the model takes as given for an upload: generateId's value for group k, and the metadata read for a base name. */
  datatype UploadInputs = UploadInputs(newId: (nat -> string), extracted: (string -> Patch), nowIso: string)

  /** The candidate uploadFiles builds for a group (context.tsx:1107-1115). */
  function UploadCandidate(key: string, img: UploadFile, targetSourceId: string, isElectron: bool,
                           inputs: UploadInputs, k: nat): ImageRecord
  {
    var src := if isElectron && img.path != "" then FILE_SCHEME + ReplaceChar(img.path, '\\', '/') else "";
    var overrides := map[SourceId := Str(targetSourceId), Title := Str(ReplaceChar(key, '_', ' ')), Src := Str(src),
                         BlobData := BlobVal(img.content), Date := Str(img.lastModified), Hash := Str(img.hash)];
    ImageService.CreateBaseImage(overrides + inputs.extracted(key), inputs.newId(k), inputs.nowIso)
  }

  /** The candidates from the first `n` group keys that have an image. */
  function UploadItems(keys: seq<string>, groups: map<string, Group>, targetSourceId: string, isElectron: bool,
                       inputs: UploadInputs, n: nat): seq<Item>
    requires n <= |keys|
  {
    if n == 0 then []
    else
      var k := n - 1;
      var key := keys[k];
      UploadItems(keys, groups, targetSourceId, isElectron, inputs, k) +
      (if key in groups && groups[key].image.Some?
       then [Item(groups[key].image.value.hash, UploadCandidate(key, groups[key].image.value, targetSourceId, isElectron, inputs, k))]
       else [])
  }

  function UploadBuckets(stored: map<string, ImageRecord>, files: seq<UploadFile>, targetSourceId: string,
                         isElectron: bool, inputs: UploadInputs): Buckets
  {
    var g := Grouped(files);
    Bucketed(stored, UploadItems(g.0, g.1, targetSourceId, isElectron, inputs, |g.0|), true)
  }

  /** `${sanitizeFilename(img.title)}.${ext}` */
  function UploadFilename(img: ImageRecord): string
    requires img.blob.Some?
  {
    Utils.SanitizeFilename(img.title) + "." + Duplicates.BlobExt(img.blob.value.mime)
  }

  /** One image of the vault-save loop (context.tsx:1131-1146): an image with a blob is saved at `target`. */
  method SaveUpload(host: Host.MainProcess, img: ImageRecord, vaultPath: string, now: int)
    returns (after: ImageRecord, ghost target: string)
    modifies host`files, host`dirs, host`allowedPaths, host`ignoredPaths, host`timers
    ensures Duplicates.SavedOrKept(img, after)
    ensures img.blob.None? ==> after == img && host.files == old(host.files)
    ensures after != img ==> Duplicates.StoredAt(host.files, img, after, target)
    ensures img.blob.Some? && host.faulty == {} ==> after != img
    ensures Duplicates.VaultFrame(old(host.files), host.files)
  {
    after := img;
    target := "";
    if img.blob.Some? {
      var res := host.SaveBlobToVault(vaultPath, "", UploadFilename(img), img.blob.value.data, Some(AsPatch(img)), now);
      if res.Success? {
        Duplicates.SaveBlobFrame(old(host.files), res.value, img.blob.value.data, Some(AsPatch(img)));
      }
      if res.Success? && res.value != "" {
        target := res.value;
        after := Duplicates.SavedAt(img, res.value);
      }
    }
  }

  /** The vault-save loop: every image with a blob is written to the vault root; `targets` are the saved paths. */
  method SaveUploads(host: Host.MainProcess, batch: seq<ImageRecord>, vaultPath: string, now: int)
    returns (out: seq<ImageRecord>, ghost targets: seq<string>)
    modifies host`files, host`dirs, host`allowedPaths, host`ignoredPaths, host`timers
    ensures Duplicates.SavedOrKeptAll(batch, out) && Duplicates.StoredAll(host.files, batch, out, targets)
    ensures forall k :: 0 <= k < |batch| && batch[k].blob.Some? && host.faulty == {} ==> out[k] != batch[k]
  {
    out := [];
    targets := [];
    var i := 0;
    while i < |batch|
      invariant 0 <= i <= |batch|
      invariant Duplicates.SavedOrKeptAll(batch[..i], out) && |targets| == i
      invariant forall k :: 0 <= k < i && out[k] != batch[k] ==> Duplicates.StoredAt(host.files, batch[k], out[k], targets[k])
      invariant forall k :: 0 <= k < i && batch[k].blob.Some? && host.faulty == {} ==> out[k] != batch[k]
    {
      ghost var before := host.files;
      var img, t := SaveUpload(host, batch[i], vaultPath, now);
      forall k | 0 <= k < i && out[k] != batch[k] ensures Duplicates.StoredAt(host.files, batch[k], out[k], targets[k]) {
        Duplicates.StoredAtKept(before, host.files, batch[k], out[k], targets[k]);
      }
      Duplicates.SavedAppend(batch[..i], out, batch[i], img);
      assert batch[..i + 1] == batch[..i] + [batch[i]];
      out := out + [img];
      targets := targets + [t];
      i := i + 1;
    }
    assert batch[..i] == batch;
  }

  const DROP_SOURCE_NAME: string := "Drag & Drop Import"

  /** The notice in front of a large upload. */
  function UploadStart(count: nat): seq<Notice>
  {
    if count > 5 then [Notice(Toaster.Info, "Processing " + NatToString(count) + " images...")] else []
  }

  /**
   * uploadFiles (context.tsx:1035-1160). Without an image file nothing
   * happens. Otherwise the files are grouped by base name and each group with
   * an image becomes a candidate. Duplicates (marked `isDuplicate`) send the
   * batch to the duplicate dialog and nothing is stored; otherwise the new
   * entries are stored, after those with a blob were written to the vault when
   * the target is the Local Vault of the desktop app with a vault path.
   */
  method UploadFiles(db: Db, host: Host.MainProcess, dups: Duplicates.DuplicateState, files: seq<UploadFile>,
                     targetSourceId: string, isElectron: bool, localVaultPath: string, inputs: UploadInputs, now: int)
    returns (notices: seq<Notice>, persisted: seq<ImageRecord>, ghost targets: seq<string>)
    modifies db`images, dups`pending, host`files, host`dirs, host`allowedPaths, host`ignoredPaths, host`timers
    ensures ProcessCount(files) == 0 ==>
      notices == [] && persisted == [] && db.images == old(db.images) && dups.pending == old(dups.pending) &&
      host.files == old(host.files)
    ensures ProcessCount(files) > 0 && old(UploadBuckets(db.images, files, targetSourceId, isElectron, inputs)).dupes != [] ==>
      var b := old(UploadBuckets(db.images, files, targetSourceId, isElectron, inputs));
      && dups.pending == Some(Duplicates.Pending(b.entries, b.dupes, DROP_SOURCE_NAME))
      && notices == UploadStart(ProcessCount(files))
      && persisted == [] && db.images == old(db.images) && host.files == old(host.files)
    ensures ProcessCount(files) > 0 && old(UploadBuckets(db.images, files, targetSourceId, isElectron, inputs)).dupes == [] ==>
      var b := old(UploadBuckets(db.images, files, targetSourceId, isElectron, inputs));
      && dups.pending == old(dups.pending)
      && Duplicates.SavedOrKeptAll(b.entries, persisted)
      && (targetSourceId != INTERNAL || !isElectron || localVaultPath == "" ==> persisted == b.entries && host.files == old(host.files))
      && Duplicates.StoredAll(host.files, b.entries, persisted, targets)
      && (targetSourceId == INTERNAL && isElectron && localVaultPath != "" && host.faulty == {} ==>
            forall k :: 0 <= k < |b.entries| && b.entries[k].blob.Some? ==> persisted[k] != b.entries[k])
      && db.images == BulkAdded(old(db.images), persisted)
      && notices == UploadStart(ProcessCount(files)) + UploadOutcome(persisted, BulkFailures(old(db.images), persisted))
  {
    notices := [];
    persisted := [];
    targets := [];
    var count := ProcessCount(files);
    if count == 0 {
      return;
    }
    notices := UploadStart(count);
    var g := Grouped(files);
    var items := UploadItems(g.0, g.1, targetSourceId, isElectron, inputs, |g.0|);
    var b := Classify(db, items, true);
    if |b.dupes| > 0 {
      dups.pending := Some(Duplicates.Pending(b.entries, b.dupes, DROP_SOURCE_NAME));
      return;
    }
    var outcome;
    persisted, outcome, targets := StoreUploads(db, host, b.entries, targetSourceId == INTERNAL && isElectron && localVaultPath != "",
                                       localVaultPath, now);
    notices := notices + outcome;
  }

  /** The no-duplicates branch of uploadFiles (context.tsx:1125-1151): save to the vault when `toVault`, then bulkAdd. */
  method StoreUploads(db: Db, host: Host.MainProcess, entries: seq<ImageRecord>, toVault: bool, localVaultPath: string,
                      now: int)
    returns (persisted: seq<ImageRecord>, notices: seq<Notice>, ghost targets: seq<string>)
    modifies db`images, host`files, host`dirs, host`allowedPaths, host`ignoredPaths, host`timers
    ensures Duplicates.SavedOrKeptAll(entries, persisted)
    ensures !toVault ==> persisted == entries && host.files == old(host.files)
    ensures Duplicates.StoredAll(host.files, entries, persisted, targets)
    ensures toVault && host.faulty == {} ==> forall k :: 0 <= k < |entries| && entries[k].blob.Some? ==> persisted[k] != entries[k]
    ensures db.images == BulkAdded(old(db.images), persisted)
    ensures notices == UploadOutcome(persisted, BulkFailures(old(db.images), persisted))
  {
    persisted := entries;
    targets := seq(|entries|, _ => "");
    if |entries| > 0 && toVault {
      persisted, targets := SaveUploads(host, entries, localVaultPath, now);
    }
    var failures := db.BulkAdd(persisted);
    notices := UploadOutcome(persisted, failures);
  }

  /** The closing notice of an upload without duplicates; a rejected bulkAdd lands in the catch block. */
  function UploadOutcome(persisted: seq<ImageRecord>, failures: nat): seq<Notice>
  {
    if persisted == [] then []
    else if failures > 0 then [Notice(Toaster.Error, "Upload failed")]
    else [Notice(Toaster.Success, "Imported " + NatToString(|persisted|) + " items.")]
  }
}
