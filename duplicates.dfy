/**
 * useDuplicates (src/context/hooks/useDuplicates.ts): the import batch held
 * back because some files duplicate stored images, and resolveDuplicates,
 * which persists it once the user chose to skip or keep the duplicates.
 */
module Duplicates {
  import opened Wrappers
  import opened Strings
  import opened Model
  import opened Store
  import opened AppState
  import Host
  import Utils
  import Toaster

  /** DuplicateState: the new images, the duplicates, and the name of the source being imported. */
  datatype Pending = Pending(newImages: seq<ImageRecord>, duplicates: seq<ImageRecord>, sourceName: string)

  datatype Choice = Skip | Keep

  /** The duplicates with their `isDuplicate` marker taken off. */
  function Cleaned(ds: seq<ImageRecord>): (r: seq<ImageRecord>)
    ensures |r| == |ds|
    ensures forall i :: 0 <= i < |ds| ==> r[i] == ds[i].(isDuplicate := false)
  {
    seq(|ds|, i requires 0 <= i < |ds| => ds[i].(isDuplicate := false))
  }

  /** `finalBatch`: the new images, followed by the cleaned duplicates when they are kept. */
  function FinalBatch(p: Pending, choice: Choice): (r: seq<ImageRecord>)
    ensures choice == Skip ==> r == p.newImages
    ensures choice == Keep ==>
      |r| == |p.newImages| + |p.duplicates| && r[..|p.newImages|] == p.newImages &&
      forall i :: 0 <= i < |p.duplicates| ==> r[|p.newImages| + i] == p.duplicates[i].(isDuplicate := false) && !r[|p.newImages| + i].isDuplicate
  {
    if choice == Keep then p.newImages + Cleaned(p.duplicates) else p.newImages
  }

  /** `addedCount` and `skippedCount` as the toast reports them. */
  function Counts(p: Pending, choice: Choice): (c: (nat, nat))
    ensures c.0 == |FinalBatch(p, choice)|
    ensures c.1 == if choice == Skip then |p.duplicates| else 0
    ensures c.0 + c.1 == |p.newImages| + |p.duplicates|
  {
    if choice == Keep then (|p.newImages| + |p.duplicates|, 0) else (|p.newImages|, |p.duplicates|)
  }

  function ImportedMessage(added: nat, skipped: nat): string
  {
    "Imported " + NatToString(added) + " items." +
    (if skipped > 0 then " Skipped " + NatToString(skipped) + " duplicates." else "")
  }

  /** A Local Vault image that only exists in memory: it has a blob and no file:// src. */
  predicate NeedsFile(img: ImageRecord)
  {
    img.sourceId == INTERNAL && img.blob.Some? && !(img.src.Some? && StartsWith(img.src.value, FILE_SCHEME))
  }

  /** `img.blob.type.split('/')[1] || 'png'` */
  function BlobExt(mime: string): (ext: string)
    ensures ext != ""
  {
    var parts := Split(mime, '/');
    if |parts| >= 2 && parts[1] != "" then parts[1] else "png"
  }

  /** `${sanitizeFilename(img.title) || `image_${Date.now()}`}.${ext}` */
  function DeferredFilename(img: ImageRecord, now: int): string
    requires img.blob.Some?
  {
    var safe := Utils.SanitizeFilename(img.title);
    var safeTitle := if safe != "" then safe else "image_" + IntToString(now);
    safeTitle + "." + BlobExt(img.blob.value.mime)
  }

  /** The image once its file was written at `target`: a file:// src and no blob. */
  function SavedAt(img: ImageRecord, target: string): (r: ImageRecord)
    ensures IsFileUrl(r.src) && r.blob.None?
    ensures r.(src := img.src, blob := img.blob) == img
  {
    img.(src := Some(FILE_SCHEME + ReplaceChar(target, '\\', '/')), blob := None)
  }

  /**
   * What a vault-save loop may do to one image: leave it as it was, or (only
   * for an image with a blob) give it a file:// src and drop its blob.
   */
  predicate SavedOrKept(before: ImageRecord, after: ImageRecord)
  {
    after == before ||
    (before.blob.Some? && IsFileUrl(after.src) && after.blob.None? && after == before.(src := after.src, blob := None))
  }

  predicate SavedOrKeptAll(before: seq<ImageRecord>, after: seq<ImageRecord>)
  {
    |after| == |before| && forall i :: 0 <= i < |before| ==> SavedOrKept(before[i], after[i])
  }

  lemma SavedAppend(before: seq<ImageRecord>, after: seq<ImageRecord>, b: ImageRecord, a: ImageRecord)
    requires SavedOrKeptAll(before, after) && SavedOrKept(b, a)
    ensures SavedOrKeptAll(before + [b], after + [a])
  {
  }

  /**
   * `img` was saved at `target`: the record points at the file, and the file
   * holds the blob's bytes unless its name is that of a sidecar, which
   * save-blob-to-vault then writes over it.
   */
  predicate StoredAt(files: map<string, Host.Content>, img: ImageRecord, after: ImageRecord, target: string)
  {
    img.blob.Some? && after == SavedAt(img, target) && target in files &&
    (!EndsWith(target, ".json") && !EndsWith(target, ".txt") ==> files[target] == Host.Binary(img.blob.value.data))
  }

  /** Every image the save changed was stored at its target. */
  predicate StoredAll(files: map<string, Host.Content>, batch: seq<ImageRecord>, out: seq<ImageRecord>,
                      targets: seq<string>)
  {
    |out| == |batch| && |targets| == |batch| &&
    forall k :: 0 <= k < |batch| && out[k] != batch[k] ==> StoredAt(files, batch[k], out[k], targets[k])
  }

  /** save-blob-to-vault never removes a file, and only overwrites files named like sidecars. */
  predicate VaultFrame(before: map<string, Host.Content>, after: map<string, Host.Content>)
  {
    forall q :: q in before ==> q in after && (!EndsWith(q, ".json") && !EndsWith(q, ".txt") ==> after[q] == before[q])
  }

  /** A saved image stays saved through later saves. */
  lemma StoredAtKept(f: map<string, Host.Content>, g: map<string, Host.Content>, img: ImageRecord, after: ImageRecord,
                     target: string)
    requires StoredAt(f, img, after, target) && VaultFrame(f, g)
    ensures StoredAt(g, img, after, target)
  {
  }

  /** What save-blob-to-vault does to the disk, as far as the save loops need it. */
  lemma SaveBlobFrame(files: map<string, Host.Content>, target: string, data: seq<int>, metadata: Option<Patch>)
    requires target !in files
    ensures var after := Host.SidecarsWritten(files[target := Host.Binary(data)], target, metadata);
      VaultFrame(files, after) && target in after &&
      (!EndsWith(target, ".json") && !EndsWith(target, ".txt") ==> after[target] == Host.Binary(data))
  {
    var placed := files[target := Host.Binary(data)];
    if !EndsWith(target, ".json") && !EndsWith(target, ".txt") {
      Host.SidecarsKeepImage(placed, target, metadata);
    }
    forall q | q in files && !EndsWith(q, ".json") && !EndsWith(q, ".txt")
      ensures Host.SidecarsWritten(placed, target, metadata)[q] == files[q]
    {
      var base := Host.StripExt(target);
      EndsWithAppend(base, ".json");
      EndsWithAppend(base, ".txt");
    }
  }

  /**
   * One turn of that loop (useDuplicates.ts:63-88): save-blob-to-vault with the
   * record as its metadata. An image saved is repointed at `target`; with no
   * faulty path every memory-only image is saved.
   */
  method SaveOne(host: Host.MainProcess, img: ImageRecord, vaultPath: string, now: int)
    returns (after: ImageRecord, ghost target: string)
    modifies host`files, host`dirs, host`allowedPaths, host`ignoredPaths, host`timers
    ensures SavedOrKept(img, after)
    ensures !NeedsFile(img) ==> after == img && host.files == old(host.files)
    ensures after != img ==> StoredAt(host.files, img, after, target)
    ensures NeedsFile(img) && host.faulty == {} ==> after != img
    ensures VaultFrame(old(host.files), host.files)
  {
    after := img;
    target := "";
    if NeedsFile(img) {
      var result := host.SaveBlobToVault(vaultPath, "Imported", DeferredFilename(img, now), img.blob.value.data,
                                         Some(AsPatch(img)), now);
      if result.Success? {
        SaveBlobFrame(old(host.files), result.value, img.blob.value.data, Some(AsPatch(img)));
      }
      if result.Success? && result.value != "" {
        target := result.value;
        after := SavedAt(img, result.value);
      }
    }
  }

  /**
   * The loop of useDuplicates.ts:62-89: each memory-only image of the batch is
   * written to `Imported` in the vault through save-blob-to-vault. An image whose
   * write fails keeps its blob and its src; `targets` are the saved paths.
   */
  method SaveDeferred(host: Host.MainProcess, batch: seq<ImageRecord>, vaultPath: string, now: int)
    returns (out: seq<ImageRecord>, ghost targets: seq<string>)
    modifies host`files, host`dirs, host`allowedPaths, host`ignoredPaths, host`timers
    ensures SavedOrKeptAll(batch, out) && StoredAll(host.files, batch, out, targets)
    ensures forall k :: 0 <= k < |batch| && NeedsFile(batch[k]) && host.faulty == {} ==> out[k] != batch[k]
  {
    out := [];
    targets := [];
    var i := 0;
    while i < |batch|
      invariant 0 <= i <= |batch|
      invariant SavedOrKeptAll(batch[..i], out) && |targets| == i
      invariant forall k :: 0 <= k < i && out[k] != batch[k] ==> StoredAt(host.files, batch[k], out[k], targets[k])
      invariant forall k :: 0 <= k < i && NeedsFile(batch[k]) && host.faulty == {} ==> out[k] != batch[k]
    {
      ghost var before := host.files;
      var img, t := SaveOne(host, batch[i], vaultPath, now);
      forall k | 0 <= k < i && out[k] != batch[k] ensures StoredAt(host.files, batch[k], out[k], targets[k]) {
        StoredAtKept(before, host.files, batch[k], out[k], targets[k]);
      }
      SavedAppend(batch[..i], out, batch[i], img);
      assert batch[..i + 1] == batch[..i] + [batch[i]];
      out := out + [img];
      targets := targets + [t];
      i := i + 1;
    }
    assert batch[..i] == batch;
  }

  class DuplicateState {
    var pending: Option<Pending>

    constructor ()
      ensures pending == None
    {
      pending := None;
    }

    /**
     * resolveDuplicates (useDuplicates.ts:38-100). With nothing pending it does
     * nothing. Otherwise the batch (new images, plus the cleaned duplicates under
     * Keep) is added to the store, after the memory-only Local Vault images were
     * written to the vault when the app runs under Electron with a vault path;
     * an empty batch persists nothing. The pending state is cleared in every case.
     */
    method ResolveDuplicates(choice: Choice, db: Db, host: Host.MainProcess, isElectron: bool,
                             localVaultPath: string, now: int)
      returns (persisted: seq<ImageRecord>, notice: Option<Notice>, ghost targets: seq<string>)
      modifies this`pending, db`images
      modifies host`files, host`dirs, host`allowedPaths, host`ignoredPaths, host`timers
      ensures pending == None
      ensures old(pending).None? ==>
        persisted == [] && notice == None && db.images == old(db.images) && host.files == old(host.files)
      ensures old(pending).Some? && FinalBatch(old(pending).value, choice) == [] ==>
        persisted == [] && db.images == old(db.images) &&
        notice == Some(Notice(Toaster.Info, "Import skipped. " + NatToString(|old(pending).value.duplicates|) + " duplicates found."))
      ensures old(pending).Some? && FinalBatch(old(pending).value, choice) != [] ==>
        var batch := FinalBatch(old(pending).value, choice);
        var counts := Counts(old(pending).value, choice);
        && SavedOrKeptAll(batch, persisted)
        && (!isElectron || localVaultPath == "" ==> persisted == batch && host.files == old(host.files))
        && StoredAll(host.files, batch, persisted, targets)
        && (isElectron && localVaultPath != "" && host.faulty == {} ==>
              forall k :: 0 <= k < |batch| && NeedsFile(batch[k]) ==> persisted[k] != batch[k])
        && db.images == BulkAdded(old(db.images), persisted)
        && notice == Some(Notice(Toaster.Success, ImportedMessage(counts.0, counts.1)))
    {
      persisted := [];
      notice := None;
      targets := [];
      if pending.None? {
        return;
      }
      var p := pending.value;
      var finalBatch := FinalBatch(p, choice);
      var counts := Counts(p, choice);
      if |finalBatch| > 0 {
        persisted := finalBatch;
        targets := seq(|finalBatch|, _ => "");
        if isElectron && localVaultPath != "" {
          persisted, targets := SaveDeferred(host, finalBatch, localVaultPath, now);
        }
        var _ := db.BulkAdd(persisted);
        notice := Some(Notice(Toaster.Success, ImportedMessage(counts.0, counts.1)));
      } else {
        notice := Some(Notice(Toaster.Info, "Import skipped. " + NatToString(|p.duplicates|) + " duplicates found."));
      }
      pending := None;
    }
  }
}
