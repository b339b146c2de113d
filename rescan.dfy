/**
 * checkActiveSource (src/context.tsx:1198-1335): rescan the folders of the
 * active source (or of every source) and bring the store in line with them.
 * A scanned file whose path a listed image already has is attributed to the
 * scanned source; an unknown file becomes a new record; and the source's
 * file:// records whose file the scan did not find are deleted.
 */
module Rescan {
  import opened Wrappers
  import opened Strings
  import opened Model
  import opened Store
  import opened AppState
  import Host
  import Utils
  import Toaster
  import ImageService

  /** `file://${fullPath.replace(/\\/g, '/')}` */
  function FileUrl(p: string): string
  {
    FILE_SCHEME + ReplaceChar(p, '\\', '/')
  }

  /** `normalizePath(url).toLowerCase()`, the key paths are compared by. */
  function PathKey(src: string): string
  {
    ToLower(Utils.NormalizePath(src, false))
  }

  /** `allKnownPaths`: each listed image with a src under its key; a later image replaces an earlier one. */
  function KnownPaths(images: seq<ImageRecord>): (known: map<string, ImageRecord>)
    ensures forall k :: k in known ==> known[k] in images && Truthy(known[k].src) && PathKey(known[k].src.value) == k
  {
    if images == [] then map[]
    else
      var init, img := images[..|images| - 1], images[|images| - 1];
      var known := KnownPaths(init);
      assert forall x :: x in init ==> x in images;
      if Truthy(img.src) then known[PathKey(img.src.value) := img] else known
  }

  /** Every listed image with a src can be found under its key. */
  lemma {:induction false} KnownPathsComplete(images: seq<ImageRecord>, img: ImageRecord)
    requires img in images && Truthy(img.src)
    ensures PathKey(img.src.value) in KnownPaths(images)
    decreases |images|
  {
    var init, last := images[..|images| - 1], images[|images| - 1];
    if img != last || !Truthy(last.src) {
      assert img in init by { var i :| 0 <= i < |images| && images[i] == img; assert i < |images| - 1; assert init[i] == img; }
      KnownPathsComplete(init, img);
    }
  }

  /** The loop that fills `allKnownPaths` (context.tsx:1254-1261). */
  method BuildKnown(images: seq<ImageRecord>) returns (known: map<string, ImageRecord>)
    ensures known == KnownPaths(images)
  {
    known := map[];
    var i := 0;
    while i < |images|
      invariant 0 <= i <= |images|
      invariant known == KnownPaths(images[..i])
    {
      assert images[..i + 1][..i] == images[..i];
      if Truthy(images[i].src) {
        known := known[PathKey(images[i].src.value) := images[i]];
      }
      i := i + 1;
    }
    assert images[..i] == images;
  }

  /**
   * What the model takes as given: generateId's value for the record a new
   * file becomes, the modification time the scan reports, and the inputs of
   * enrichImageMetadata for that file (read-metadata's data, the JSON stages
   * of parseGenerationData on it, and the colours the extractor returns).
   */
  datatype RescanInputs = RescanInputs(
    newId: (string -> string), dateOf: (string -> string), meta: (string -> Option<ImageService.Meta>),
    structured: (string -> Patch), simplePositive: (string -> Option<string>), colors: (string -> Option<seq<string>>),
    nowIso: string)

  /** The record createBaseImage gives an unknown file, before the enrichment `u` is assigned over it. */
  function NewScanned(f: Host.ScannedFile, target: string, inputs: RescanInputs): ImageRecord
  {
    var overrides := map[Src := Str(FileUrl(f.fullPath)), Title := Str(Split(f.name, '.')[0]), SourceId := Str(target),
                         Date := Str(inputs.dateOf(f.fullPath)), Width := Num(0), Height := Num(0)];
    ImageService.CreateBaseImage(overrides, inputs.newId(f.fullPath), inputs.nowIso)
  }

  /** A new record belongs to the scanned source and points at the file, whatever the enrichment adds. */
  lemma NewScannedFacts(f: Host.ScannedFile, target: string, inputs: RescanInputs, u: Patch)
    requires ImageService.NoCore(u)
    ensures Apply(NewScanned(f, target, inputs), u).sourceId == target
    ensures Apply(NewScanned(f, target, inputs), u).src == Some(FileUrl(f.fullPath))
  {
    var overrides := map[Src := Str(FileUrl(f.fullPath)), Title := Str(Split(f.name, '.')[0]), SourceId := Str(target),
                         Date := Str(inputs.dateOf(f.fullPath)), Width := Num(0), Height := Num(0)];
    ImageService.CreateBaseGet(overrides, inputs.newId(f.fullPath), inputs.nowIso, SourceId);
    ImageService.CreateBaseGet(overrides, inputs.newId(f.fullPath), inputs.nowIso, Src);
    ImageService.NoCoreKeeps(NewScanned(f, target, inputs), u);
  }

  /** The key each scanned file is looked up under. */
  function ScanKeys(files: seq<Host.ScannedFile>): (keys: seq<string>)
    ensures |keys| == |files| && forall i :: 0 <= i < |files| ==> keys[i] == PathKey(FileUrl(files[i].fullPath))
  {
    seq(|files|, i requires 0 <= i < |files| => PathKey(FileUrl(files[i].fullPath)))
  }

  /**
   * One scanned file, looked up under `key`, against the store
   * (context.tsx:1265-1305): a known image of another source is moved to the
   * scanned one, a known image of the scanned source is left alone, and an
   * unknown file is stored as `r`, the record it becomes.
   */
  function ScanStep(m: map<string, ImageRecord>, known: map<string, ImageRecord>, target: string,
                    key: string, r: ImageRecord): map<string, ImageRecord>
  {
    if key in known then
      var e := known[key];
      if e.sourceId != target && e.id in m then m[e.id := Updated(m[e.id], map[SourceId := Str(target)])] else m
    else m[r.id := r]
  }

  /** The store after the scanned files, in order; `news[i]` is the record the i-th file becomes if it is unknown. */
  function ScanApplied(m: map<string, ImageRecord>, known: map<string, ImageRecord>, target: string,
                       keys: seq<string>, news: seq<ImageRecord>): map<string, ImageRecord>
    requires |news| == |keys|
  {
    if keys == [] then m
    else
      var n := |keys| - 1;
      ScanStep(ScanApplied(m, known, target, keys[..n], news[..n]), known, target, keys[n], news[n])
  }

  /** `totalAdded` for one source: files moved to it plus files added. */
  function AddedCount(known: map<string, ImageRecord>, target: string, keys: seq<string>): nat
  {
    if keys == [] then 0
    else
      var key := keys[|keys| - 1];
      AddedCount(known, target, keys[..|keys| - 1]) + (if key !in known || known[key].sourceId != target then 1 else 0)
  }

  /** A step never takes a record away, and a record of the source stays one (new records belong to it). */
  lemma ScanStepKeeps(m: map<string, ImageRecord>, known: map<string, ImageRecord>, target: string,
                      key: string, r: ImageRecord, id: string)
    requires id in m && r.sourceId == target
    ensures id in ScanStep(m, known, target, key, r)
    ensures m[id].sourceId == target ==> ScanStep(m, known, target, key, r)[id].sourceId == target
  {
    if key in known {
      var e := known[key];
      if e.sourceId != target && e.id in m {
        UpdatedGet(m[e.id], map[SourceId := Str(target)], SourceId);
      }
    }
  }

  predicate AllOf(news: seq<ImageRecord>, target: string) { forall i :: 0 <= i < |news| ==> news[i].sourceId == target }

  /** What one step guarantees lasts through all later ones. */
  lemma {:induction false} ScanAppliedKeeps(m: map<string, ImageRecord>, known: map<string, ImageRecord>, target: string,
                                            keys: seq<string>, news: seq<ImageRecord>, id: string)
    requires |news| == |keys| && AllOf(news, target)
    requires id in m
    ensures id in ScanApplied(m, known, target, keys, news)
    ensures m[id].sourceId == target ==> ScanApplied(m, known, target, keys, news)[id].sourceId == target
    decreases |keys|
  {
    if keys != [] {
      var n := |keys| - 1;
      ScanAppliedKeeps(m, known, target, keys[..n], news[..n], id);
      ScanStepKeeps(ScanApplied(m, known, target, keys[..n], news[..n]), known, target, keys[n], news[n], id);
    }
  }

  /** Applying the files is applying a prefix, then the rest. */
  lemma {:induction false} ScanAppliedSplit(m: map<string, ImageRecord>, known: map<string, ImageRecord>, target: string,
                                            keys: seq<string>, news: seq<ImageRecord>, k: nat)
    requires |news| == |keys| && k <= |keys|
    ensures ScanApplied(m, known, target, keys, news) ==
      ScanApplied(ScanApplied(m, known, target, keys[..k], news[..k]), known, target, keys[k..], news[k..])
    decreases |keys| - k
  {
    if k == |keys| {
      assert keys[..k] == keys && news[..k] == news;
    } else {
      var n := |keys| - 1;
      var ks, ns := keys[k..], news[k..];
      var a := ScanApplied(m, known, target, keys[..k], news[..k]);
      assert keys[..n][..k] == keys[..k] && news[..n][..k] == news[..k];
      assert ks[..|ks| - 1] == keys[..n][k..] && ns[..|ns| - 1] == news[..n][k..];
      assert ks[|ks| - 1] == keys[n] && ns[|ns| - 1] == news[n];
      ScanAppliedSplit(m, known, target, keys[..n], news[..n], k);
      assert ScanApplied(a, known, target, ks, ns) ==
        ScanStep(ScanApplied(a, known, target, ks[..|ks| - 1], ns[..|ns| - 1]), known, target, ks[|ks| - 1], ns[|ns| - 1]);
    }
  }

  /**
   * Every scanned file ends up as a record of the scanned source: a known path
   * whose listed image belonged elsewhere is moved over (when its record is
   * still stored), and an unknown path is stored as its new record.
   */
  lemma ScanAttributes(m: map<string, ImageRecord>, known: map<string, ImageRecord>, target: string,
                       keys: seq<string>, news: seq<ImageRecord>, i: nat)
    requires |news| == |keys| && AllOf(news, target) && i < |keys|
    ensures var result := ScanApplied(m, known, target, keys, news);
      && (keys[i] in known && known[keys[i]].id in m ==>
            known[keys[i]].id in result && (known[keys[i]].sourceId != target ==> result[known[keys[i]].id].sourceId == target))
      && (keys[i] !in known ==> news[i].id in result && result[news[i].id].sourceId == target)
  {
    var key := keys[i];
    var before := ScanApplied(m, known, target, keys[..i], news[..i]);
    var after := ScanApplied(m, known, target, keys[..i + 1], news[..i + 1]);
    assert keys[..i + 1][..i] == keys[..i] && news[..i + 1][..i] == news[..i];
    assert after == ScanStep(before, known, target, key, news[i]);
    assert AllOf(news[..i], target) && AllOf(news[i + 1..], target);
    ScanAppliedSplit(m, known, target, keys, news, i + 1);
    if key in known && known[key].id in m {
      var id := known[key].id;
      ScanAppliedKeeps(m, known, target, keys[..i], news[..i], id);
      if known[key].sourceId != target {
        UpdatedGet(before[id], map[SourceId := Str(target)], SourceId);
      }
      ScanAppliedKeeps(after, known, target, keys[i + 1..], news[i + 1..], id);
    }
    if key !in known {
      ScanAppliedKeeps(after, known, target, keys[i + 1..], news[i + 1..], news[i].id);
    }
  }

  /** `news[i]` is the i-th file's base record with its enrichment `us[i]` assigned over it. */
  predicate Enriched(files: seq<Host.ScannedFile>, target: string, inputs: RescanInputs, us: seq<Patch>, news: seq<ImageRecord>)
  {
    |us| == |news| == |files| &&
    forall i :: 0 <= i < |files| ==> ImageService.NoCore(us[i]) && news[i] == Apply(NewScanned(files[i], target, inputs), us[i])
  }

  /** The new records belong to the scanned source. */
  lemma EnrichedOf(files: seq<Host.ScannedFile>, target: string, inputs: RescanInputs, us: seq<Patch>, news: seq<ImageRecord>)
    requires Enriched(files, target, inputs, us, news)
    ensures AllOf(news, target)
  {
    forall i | 0 <= i < |files|
      ensures news[i].sourceId == target
    {
      NewScannedFacts(files[i], target, inputs, us[i]);
    }
  }

  /** How one file is handled, given its key and the record it would become. */
  method ScanOne(db: Db, host: Host.MainProcess, known: map<string, ImageRecord>, target: string,
                 f: Host.ScannedFile, key: string, inputs: RescanInputs)
    returns (added: nat, ghost u: Patch, ghost r: ImageRecord)
    modifies db`images
    ensures ImageService.NoCore(u) && r == Apply(NewScanned(f, target, inputs), u)
    ensures db.images == ScanStep(old(db.images), known, target, key, r)
    ensures added == if key !in known || known[key].sourceId != target then 1 else 0
  {
    var img := NewScanned(f, target, inputs);
    u, r := map[], img;
    assert Apply(img, map[]) == img by { ApplyEmpty(img); }
    added := 0;
    if key in known {
      var e := known[key];
      if e.sourceId != target {
        var _ := db.Update(e.id, map[SourceId := Str(target)]);
        added := 1;
      }
    } else {
      var updates, hasChanges := ImageService.EnrichImageMetadata(img, host, true, inputs.meta(f.fullPath),
                                                                  inputs.structured(f.fullPath), inputs.simplePositive(f.fullPath),
                                                                  inputs.colors(f.fullPath));
      var stored := Apply(img, updates);
      u := updates;
      r := stored;
      db.Put(stored);
      added := 1;
    }
  }

  lemma TakeOneMore<T>(s: seq<T>, i: nat)
    requires i < |s|
    ensures s[..i + 1] == s[..i] + [s[i]]
  {
  }

  lemma ScanSnoc(m: map<string, ImageRecord>, known: map<string, ImageRecord>, target: string,
                 keys: seq<string>, news: seq<ImageRecord>, key: string, r: ImageRecord)
    requires |news| == |keys|
    ensures ScanApplied(m, known, target, keys + [key], news + [r]) ==
      ScanStep(ScanApplied(m, known, target, keys, news), known, target, key, r)
    ensures AddedCount(known, target, keys + [key]) ==
      AddedCount(known, target, keys) + (if key !in known || known[key].sourceId != target then 1 else 0)
  {
    assert (keys + [key])[..|keys|] == keys && (news + [r])[..|keys|] == news;
  }

  lemma EnrichedSnoc(files: seq<Host.ScannedFile>, target: string, inputs: RescanInputs, us: seq<Patch>, news: seq<ImageRecord>,
                     f: Host.ScannedFile, u: Patch, r: ImageRecord)
    requires Enriched(files, target, inputs, us, news)
    requires ImageService.NoCore(u) && r == Apply(NewScanned(f, target, inputs), u)
    ensures Enriched(files + [f], target, inputs, us + [u], news + [r])
  {
    forall i | 0 <= i < |files| + 1
      ensures ImageService.NoCore((us + [u])[i]) && (news + [r])[i] == Apply(NewScanned((files + [f])[i], target, inputs), (us + [u])[i])
    {
      if i < |files| {
        assert (us + [u])[i] == us[i] && (news + [r])[i] == news[i] && (files + [f])[i] == files[i];
      }
    }
  }

  /**
   * The loop over the scanned files of one source (context.tsx:1265-1305). An
   * unknown file is enriched, then stored; `us` records the enrichments, each
   * naming none of src, blob, sourceId and date, and `news` the records.
   */
  method ScanFiles(db: Db, host: Host.MainProcess, known: map<string, ImageRecord>, target: string,
                   files: seq<Host.ScannedFile>, inputs: RescanInputs)
    returns (added: nat, ghost us: seq<Patch>, ghost news: seq<ImageRecord>)
    modifies db`images
    ensures Enriched(files, target, inputs, us, news)
    ensures db.images == ScanApplied(old(db.images), known, target, ScanKeys(files), news)
    ensures added == AddedCount(known, target, ScanKeys(files))
  {
    ghost var keys := ScanKeys(files);
    added := 0;
    us, news := [], [];
    var i := 0;
    while i < |files|
      invariant 0 <= i <= |files| && Enriched(files[..i], target, inputs, us, news)
      invariant db.images == ScanApplied(old(db.images), known, target, keys[..i], news)
      invariant added == AddedCount(known, target, keys[..i])
    {
      var key := PathKey(FileUrl(files[i].fullPath));
      var a;
      ghost var u, r;
      a, u, r := ScanOne(db, host, known, target, files[i], key, inputs);
      TakeOneMore(keys, i);
      TakeOneMore(files, i);
      ScanSnoc(old(db.images), known, target, keys[..i], news, key, r);
      EnrichedSnoc(files[..i], target, inputs, us, news, files[i], u, r);
      added := added + a;
      us, news := us + [u], news + [r];
      i := i + 1;
    }
    assert files[..i] == files && keys[..i] == keys;
  }

  /** The set `diskPaths`: the keys of the scanned files. */
  function DiskKeys(files: seq<Host.ScannedFile>): set<string>
  {
    set f | f in files :: PathKey(FileUrl(f.fullPath))
  }

  /** A listed image of the source whose file the scan did not find. */
  predicate MissingFrom(img: ImageRecord, target: string, disk: set<string>)
  {
    img.sourceId == target && img.src.Some? && StartsWith(img.src.value, FILE_SCHEME) && PathKey(img.src.value) !in disk
  }

  /** `imagesToRemove`, in list order. */
  function Missing(images: seq<ImageRecord>, target: string, disk: set<string>): (ids: seq<string>)
    ensures |ids| <= |images|
  {
    if images == [] then []
    else
      var img := images[|images| - 1];
      Missing(images[..|images| - 1], target, disk) + (if MissingFrom(img, target, disk) then [img.id] else [])
  }

  /** An id is removed iff a listed image with that id belongs to the source and its file:// path was not scanned. */
  lemma {:induction false} MissingExact(images: seq<ImageRecord>, target: string, disk: set<string>, id: string)
    ensures id in Missing(images, target, disk) <==> exists img :: img in images && img.id == id && MissingFrom(img, target, disk)
    decreases |images|
  {
    if images != [] {
      var init, img := images[..|images| - 1], images[|images| - 1];
      MissingExact(init, target, disk, id);
      assert Missing(images, target, disk) == Missing(init, target, disk) + (if MissingFrom(img, target, disk) then [img.id] else []);
      assert images == init + [img];
      assert forall x :: x in images <==> x in init || x == img;
    }
  }

  /** The deletion loop of context.tsx:1310-1319. */
  method CollectMissing(images: seq<ImageRecord>, target: string, disk: set<string>) returns (ids: seq<string>)
    ensures ids == Missing(images, target, disk)
  {
    ids := [];
    var i := 0;
    while i < |images|
      invariant 0 <= i <= |images|
      invariant ids == Missing(images[..i], target, disk)
    {
      assert images[..i + 1][..i] == images[..i];
      if MissingFrom(images[i], target, disk) {
        ids := ids + [images[i].id];
      }
      i := i + 1;
    }
    assert images[..i] == images;
  }

  /** The folder a source is scanned in: the vault path (or the default vault) for 'internal', else its own path. */
  function TargetPath(s: LibrarySource, localVaultPath: string, defaultVault: string): string
  {
    if s.id == INTERNAL then OrElse(localVaultPath, defaultVault)
    else if s.path.Some? then s.path.value else ""
  }

  function OrElse(a: string, b: string): string { if a != "" then a else b }

  /** What happened to one source: its scan (None when it was skipped), and the enrichments and records of its files. */
  datatype SourceRun = SourceRun(files: Option<seq<Host.ScannedFile>>, us: seq<Patch>, news: seq<ImageRecord>)

  predicate WellFormedRun(r: SourceRun) { r.files.Some? ==> |r.news| == |r.files.value| }

  /** The store after one source: the scanned files applied, then the missing records deleted, if there are any. */
  function SourceSynced(m: map<string, ImageRecord>, images: seq<ImageRecord>, s: LibrarySource, r: SourceRun): map<string, ImageRecord>
    requires WellFormedRun(r)
  {
    if r.files.None? then m
    else
      var fs := r.files.value;
      var scanned := ScanApplied(m, KnownPaths(images), s.id, ScanKeys(fs), r.news);
      Removed(scanned, Missing(images, s.id, DiskKeys(fs)))
  }

  lemma SourceSyncedIs(m: map<string, ImageRecord>, images: seq<ImageRecord>, s: LibrarySource, r: SourceRun)
    requires WellFormedRun(r) && r.files.Some?
    ensures var fs := r.files.value;
      SourceSynced(m, images, s, r) == Removed(ScanApplied(m, KnownPaths(images), s.id, ScanKeys(fs), r.news), Missing(images, s.id, DiskKeys(fs)))
  {
  }

  /** `bulkDelete(ids)` when there are ids to delete: exactly the listed keys go, the other records stay as they were. */
  function Removed(m: map<string, ImageRecord>, ids: seq<string>): (r: map<string, ImageRecord>)
    ensures forall id :: id in r <==> id in m && id !in ids
    ensures forall id :: id in r ==> r[id] == m[id]
  {
    if |ids| > 0 then
      var gone := set i | 0 <= i < |ids| :: ids[i];
      assert forall id :: id in gone <==> id in ids by {
        forall id | id in ids ensures id in gone { var i :| 0 <= i < |ids| && ids[i] == id; }
      }
      m - gone
    else m
  }

  function RunAdded(images: seq<ImageRecord>, s: LibrarySource, r: SourceRun): nat
  {
    if r.files.None? then 0 else AddedCount(KnownPaths(images), s.id, ScanKeys(r.files.value))
  }

  function RunRemoved(images: seq<ImageRecord>, s: LibrarySource, r: SourceRun): nat
  {
    if r.files.None? then 0 else |Missing(images, s.id, DiskKeys(r.files.value))|
  }

  /** With distinct ids in the list, a listed image of another source is never among the source's missing ones. */
  lemma NotMissing(images: seq<ImageRecord>, target: string, disk: set<string>, e: ImageRecord)
    requires forall a, b :: 0 <= a < b < |images| ==> images[a].id != images[b].id
    requires e in images && e.sourceId != target
    ensures e.id !in Missing(images, target, disk)
  {
    MissingExact(images, target, disk, e.id);
    forall x | x in images && x.id == e.id
      ensures !MissingFrom(x, target, disk)
    {
      var a :| 0 <= a < |images| && images[a] == x;
      var b :| 0 <= b < |images| && images[b] == e;
      assert a == b;
    }
  }

  /**
   * After one source is synced, a file the scan found under the key of a
   * listed image of another source has moved that image to the source. The
   * ids of the listed images are taken to be distinct, as the store's keys are.
   */
  lemma SourceSyncedMoves(m: map<string, ImageRecord>, images: seq<ImageRecord>, s: LibrarySource, r: SourceRun,
                          inputs: RescanInputs, i: nat)
    requires r.files.Some? && Enriched(r.files.value, s.id, inputs, r.us, r.news) && i < |r.files.value|
    requires forall a, b :: 0 <= a < b < |images| ==> images[a].id != images[b].id
    ensures var key := PathKey(FileUrl(r.files.value[i].fullPath));
      var known := KnownPaths(images);
      key in known && known[key].id in m && known[key].sourceId != s.id ==>
        known[key].id in SourceSynced(m, images, s, r) && SourceSynced(m, images, s, r)[known[key].id].sourceId == s.id
  {
    var fs := r.files.value;
    var keys := ScanKeys(fs);
    var known := KnownPaths(images);
    var key := keys[i];
    assert key == PathKey(FileUrl(fs[i].fullPath));
    if key in known && known[key].id in m && known[key].sourceId != s.id {
      var e := known[key];
      EnrichedOf(fs, s.id, inputs, r.us, r.news);
      var scanned := ScanApplied(m, known, s.id, keys, r.news);
      var gone := Missing(images, s.id, DiskKeys(fs));
      SourceSyncedIs(m, images, s, r);
      ScanAttributes(m, known, s.id, keys, r.news, i);
      assert e.id in scanned && scanned[e.id].sourceId == s.id;
      NotMissing(images, s.id, DiskKeys(fs), e);
      assert e.id !in gone;
    }
  }

  /**
   * After one source is synced, a file the scan found under no known key is
   * stored as a new record of the source, unless a missing image of the
   * source had the same id.
   */
  lemma SourceSyncedAdds(m: map<string, ImageRecord>, images: seq<ImageRecord>, s: LibrarySource, r: SourceRun,
                         inputs: RescanInputs, i: nat)
    requires r.files.Some? && Enriched(r.files.value, s.id, inputs, r.us, r.news) && i < |r.files.value|
    ensures var key := PathKey(FileUrl(r.files.value[i].fullPath));
      key !in KnownPaths(images) && r.news[i].id !in Missing(images, s.id, DiskKeys(r.files.value)) ==>
        r.news[i].id in SourceSynced(m, images, s, r) && SourceSynced(m, images, s, r)[r.news[i].id].sourceId == s.id
  {
    EnrichedOf(r.files.value, s.id, inputs, r.us, r.news);
    ScanAttributes(m, KnownPaths(images), s.id, ScanKeys(r.files.value), r.news, i);
  }

  /** Every listed image of the source whose file:// path the scan did not find is gone afterwards. */
  lemma SourceSyncedRemoves(m: map<string, ImageRecord>, images: seq<ImageRecord>, s: LibrarySource, r: SourceRun,
                            img: ImageRecord)
    requires WellFormedRun(r) && r.files.Some? && img in images && MissingFrom(img, s.id, DiskKeys(r.files.value))
    ensures img.id !in SourceSynced(m, images, s, r)
  {
    MissingExact(images, s.id, DiskKeys(r.files.value), img.id);
  }

  /**
   * One turn of the loop over the sources (context.tsx:1227-1323): find the
   * folder, scan it, apply the scan and delete what is missing.
   */
  method SyncSource(db: Db, host: Host.MainProcess, images: seq<ImageRecord>, known: map<string, ImageRecord>,
                    s: LibrarySource, localVaultPath: string, inputs: RescanInputs)
    returns (added: nat, removed: nat, ghost run: SourceRun)
    requires known == KnownPaths(images)
    modifies db`images, host`dirs, host`allowedPaths
    ensures WellFormedRun(run) && (run.files.Some? ==> Enriched(run.files.value, s.id, inputs, run.us, run.news))
    ensures db.images == SourceSynced(old(db.images), images, s, run)
    ensures added == RunAdded(images, s, run) && removed == RunRemoved(images, s, run)
    ensures TargetPath(s, localVaultPath, host.defaultVault) == "" ==> run.files.None?
    ensures run.files.Some? ==>
      Host.FullPaths(run.files.value) == old(host.ImagesIn(TargetPath(s, localVaultPath, host.defaultVault)))
  {
    added, removed := 0, 0;
    run := SourceRun(None, [], []);
    var targetPath := if s.path.Some? then s.path.value else "";
    if s.id == INTERNAL {
      var vaultPath := localVaultPath;
      if vaultPath == "" {
        vaultPath := host.GetDefaultVaultPath();
      }
      targetPath := vaultPath;
    }
    if targetPath == "" {
      return;
    }
    var result := host.ScanDirectory(targetPath);
    if result.None? {
      return;
    }
    added, removed, run := SyncFiles(db, host, images, known, s, result.value, inputs);
  }

  /** The scan and the deletions of one source (context.tsx:1265-1323), once its files are listed. */
  method SyncFiles(db: Db, host: Host.MainProcess, images: seq<ImageRecord>, known: map<string, ImageRecord>,
                   s: LibrarySource, files: seq<Host.ScannedFile>, inputs: RescanInputs)
    returns (added: nat, removed: nat, ghost run: SourceRun)
    requires known == KnownPaths(images)
    modifies db`images
    ensures run.files == Some(files) && WellFormedRun(run) && Enriched(files, s.id, inputs, run.us, run.news)
    ensures db.images == SourceSynced(old(db.images), images, s, run)
    ensures added == RunAdded(images, s, run) && removed == RunRemoved(images, s, run)
  {
    ghost var us, news;
    added, us, news := ScanFiles(db, host, known, s.id, files, inputs);
    var toRemove := CollectMissing(images, s.id, DiskKeys(files));
    if |toRemove| > 0 {
      db.BulkDelete(toRemove);
    }
    removed := |toRemove|;
    run := SourceRun(Some(files), us, news);
    SourceSyncedIs(old(db.images), images, s, run);
  }

  /** The sources the rescan visits. */
  function SyncSources(sources: seq<LibrarySource>, active: string): (r: seq<LibrarySource>)
    ensures active == ALL ==> r == sources
    ensures forall s :: s in r <==> s in sources && (active == ALL || s.id == active)
  {
    if active == ALL then sources
    else if sources == [] then []
    else (if sources[0].id == active then [sources[0]] else []) + SyncSources(sources[1..], active)
  }

  predicate WellFormedRuns(runs: seq<SourceRun>) { forall i :: 0 <= i < |runs| ==> WellFormedRun(runs[i]) }

  lemma AllEnrichedSnoc(ss: seq<LibrarySource>, runs: seq<SourceRun>, inputs: RescanInputs, s: LibrarySource, r: SourceRun)
    requires |ss| == |runs| && AllEnriched(ss, runs, inputs)
    requires r.files.Some? ==> Enriched(r.files.value, s.id, inputs, r.us, r.news)
    ensures AllEnriched(ss + [s], runs + [r], inputs)
  {
    forall i | 0 <= i < |runs| + 1 && (runs + [r])[i].files.Some?
      ensures Enriched((runs + [r])[i].files.value, (ss + [s])[i].id, inputs, (runs + [r])[i].us, (runs + [r])[i].news)
    {
      if i < |runs| {
        assert (runs + [r])[i] == runs[i] && (ss + [s])[i] == ss[i];
      }
    }
  }

  /** Each run's new records are its files' base records with their enrichments. */
  predicate AllEnriched(ss: seq<LibrarySource>, runs: seq<SourceRun>, inputs: RescanInputs)
    requires |ss| == |runs|
  {
    forall i :: 0 <= i < |runs| && runs[i].files.Some? ==> Enriched(runs[i].files.value, ss[i].id, inputs, runs[i].us, runs[i].news)
  }

  /** The store after the first `n` sources. */
  function SyncedAll(m: map<string, ImageRecord>, images: seq<ImageRecord>, ss: seq<LibrarySource>, runs: seq<SourceRun>,
                     n: nat): map<string, ImageRecord>
    requires n <= |ss| == |runs| && WellFormedRuns(runs)
  {
    if n == 0 then m
    else SourceSynced(SyncedAll(m, images, ss, runs, n - 1), images, ss[n - 1], runs[n - 1])
  }

  function TotalAdded(images: seq<ImageRecord>, ss: seq<LibrarySource>, runs: seq<SourceRun>, n: nat): nat
    requires n <= |ss| == |runs|
  {
    if n == 0 then 0 else TotalAdded(images, ss, runs, n - 1) + RunAdded(images, ss[n - 1], runs[n - 1])
  }

  function TotalRemoved(images: seq<ImageRecord>, ss: seq<LibrarySource>, runs: seq<SourceRun>, n: nat): nat
    requires n <= |ss| == |runs|
  {
    if n == 0 then 0 else TotalRemoved(images, ss, runs, n - 1) + RunRemoved(images, ss[n - 1], runs[n - 1])
  }

  function StartNotice(n: nat): Notice
  {
    Notice(Toaster.Info, if n > 1 then "Refreshing all " + NatToString(n) + " sources..." else "Scanning for missing files...")
  }

  function DoneNotice(added: nat, removed: nat): Notice
  {
    if added > 0 || removed > 0
    then Notice(Toaster.Success, "Sync complete: +" + NatToString(added) + " added, -" + NatToString(removed) + " removed.")
    else Notice(Toaster.Success, "Library is up to date.")
  }

  /** The loop over the sources; `images` is the image list as the rescan started. */
  method SyncAll(db: Db, host: Host.MainProcess, images: seq<ImageRecord>, ss: seq<LibrarySource>,
                 localVaultPath: string, inputs: RescanInputs)
    returns (added: nat, removed: nat, ghost runs: seq<SourceRun>)
    modifies db`images, host`dirs, host`allowedPaths
    ensures |runs| == |ss| && WellFormedRuns(runs) && AllEnriched(ss, runs, inputs)
    ensures db.images == SyncedAll(old(db.images), images, ss, runs, |ss|)
    ensures added == TotalAdded(images, ss, runs, |ss|) && removed == TotalRemoved(images, ss, runs, |ss|)
  {
    var known := BuildKnown(images);
    added, removed := 0, 0;
    runs := [];
    var i := 0;
    while i < |ss|
      invariant 0 <= i <= |ss| && |runs| == i && WellFormedRuns(runs) && AllEnriched(ss[..i], runs, inputs)
      invariant db.images == SyncedAll(old(db.images), images, ss[..i], runs, i)
      invariant added == TotalAdded(images, ss[..i], runs, i) && removed == TotalRemoved(images, ss[..i], runs, i)
    {
      var a, r;
      ghost var run;
      a, r, run := SyncSource(db, host, images, known, ss[i], localVaultPath, inputs);
      SyncedAllSnoc(old(db.images), images, ss[..i], runs, ss[i], run);
      assert ss[..i + 1] == ss[..i] + [ss[i]];
      AllEnrichedSnoc(ss[..i], runs, inputs, ss[i], run);
      added, removed := added + a, removed + r;
      runs := runs + [run];
      i := i + 1;
    }
    assert ss[..i] == ss;
  }

  lemma {:induction false} SyncedAllSnoc(m: map<string, ImageRecord>, images: seq<ImageRecord>, ss: seq<LibrarySource>,
                                         runs: seq<SourceRun>, s: LibrarySource, r: SourceRun)
    requires |ss| == |runs| && WellFormedRuns(runs) && WellFormedRun(r)
    ensures WellFormedRuns(runs + [r])
    ensures SyncedAll(m, images, ss + [s], runs + [r], |ss| + 1) ==
      SourceSynced(SyncedAll(m, images, ss, runs, |ss|), images, s, r)
    ensures TotalAdded(images, ss + [s], runs + [r], |ss| + 1) == TotalAdded(images, ss, runs, |ss|) + RunAdded(images, s, r)
    ensures TotalRemoved(images, ss + [s], runs + [r], |ss| + 1) == TotalRemoved(images, ss, runs, |ss|) + RunRemoved(images, s, r)
  {
    PrefixAgree(m, images, ss, runs, s, r, |ss|);
  }

  lemma {:induction false} PrefixAgree(m: map<string, ImageRecord>, images: seq<ImageRecord>, ss: seq<LibrarySource>,
                                       runs: seq<SourceRun>, s: LibrarySource, r: SourceRun, n: nat)
    requires n <= |ss| == |runs| && WellFormedRuns(runs) && WellFormedRun(r)
    ensures WellFormedRuns(runs + [r])
    ensures SyncedAll(m, images, ss + [s], runs + [r], n) == SyncedAll(m, images, ss, runs, n)
    ensures TotalAdded(images, ss + [s], runs + [r], n) == TotalAdded(images, ss, runs, n)
    ensures TotalRemoved(images, ss + [s], runs + [r], n) == TotalRemoved(images, ss, runs, n)
  {
    assert WellFormedRuns(runs + [r]) by {
      forall i | 0 <= i < |runs| + 1
        ensures WellFormedRun((runs + [r])[i])
      {
        if i < |runs| { assert (runs + [r])[i] == runs[i]; }
      }
    }
    if n > 0 {
      PrefixAgree(m, images, ss, runs, s, r, n - 1);
      assert (ss + [s])[n - 1] == ss[n - 1] && (runs + [r])[n - 1] == runs[n - 1];
    }
  }

  /**
   * checkActiveSource (context.tsx:1198-1335). Outside the desktop app it does
   * nothing. With a specific active source that is not listed it reports an
   * error. Otherwise every visited source is synced in turn against the image
   * list as it stood at the start, and a closing notice reports the totals.
   */
  method CheckActiveSource(db: Db, ui: Ui, host: Host.MainProcess, isElectron: bool, hasScan: bool,
                           localVaultPath: string, inputs: RescanInputs)
    returns (notices: seq<Notice>, ghost runs: seq<SourceRun>)
    modifies db`images, host`dirs, host`allowedPaths
    ensures !(isElectron && hasScan) ==> notices == [] && db.images == old(db.images)
    ensures isElectron && hasScan && SyncSources(ui.sources, ui.activeSourceId) == [] && ui.activeSourceId != ALL ==>
      notices == [Notice(Toaster.Error, "Cannot determine source to scan.")] && db.images == old(db.images)
    ensures isElectron && hasScan && !(SyncSources(ui.sources, ui.activeSourceId) == [] && ui.activeSourceId != ALL) ==>
      var ss := SyncSources(ui.sources, ui.activeSourceId);
      && |runs| == |ss| && WellFormedRuns(runs) && AllEnriched(ss, runs, inputs)
      && db.images == SyncedAll(old(db.images), ui.images, ss, runs, |ss|)
      && notices == [StartNotice(|ss|), DoneNotice(TotalAdded(ui.images, ss, runs, |ss|), TotalRemoved(ui.images, ss, runs, |ss|))]
  {
    notices := [];
    runs := [];
    if !isElectron || !hasScan {
      return;
    }
    var ss := SyncSources(ui.sources, ui.activeSourceId);
    if |ss| == 0 && ui.activeSourceId != ALL {
      notices := [Notice(Toaster.Error, "Cannot determine source to scan.")];
      return;
    }
    notices := [StartNotice(|ss|)];
    var added, removed;
    added, removed, runs := SyncAll(db, host, ui.images, ss, localVaultPath, inputs);
    notices := notices + [DoneNotice(added, removed)];
  }
}
