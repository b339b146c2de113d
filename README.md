# Archivist image library: a Dafny model

Archivist is an Electron desktop application that keeps a library of
AI-generated images. The renderer keeps image records and library sources
(the internal "Local Vault" and linked local folders) in an IndexedDB store.
The main process reads, writes, renames, trashes and backs up files on disk.
It only does so inside folders it has been told to allow, and it suppresses
the watcher events its own writes cause. A sync engine keeps the two
consistent in both directions:

- every edit of a record is written back to a `.json`/`.txt` sidecar next to
  the image and to its embedded metadata;
- every file that appears or changes in a watched folder is imported,
  re-associated or merged into the store.

This project models that core:

- the Dexie tables (`Store`);
- the main-process file handlers (`Host`);
- the sync engine (`SyncEngine`);
- the disk-sync hook that moves images between vaults (`DiskSync`);
- undo and redo (`History`, `UndoRedo`);
- the library context: refresh, update, favourite, batch rename, folder
  rescan and imports (`Library`, `Rescan`, `Imports`, `Duplicates`);
- the small hooks (`Sources`, `Selection`, `Settings`, `Toaster`,
  `ImageFilter`);
- the pure helpers (`Utils`, `GenerationData`, `ImageService`, `Ai`).

The model's conventions:

- The file system is a map from path to content, plus a set of directories.
- The main process is a class, `Host.MainProcess`. It holds that file map,
  the allowed roots, the ignored paths, the pending cleanup timers, the live
  watchers and the embedded metadata of each file.
- Records are a datatype `Model.ImageRecord`. A partial update is a `Patch`,
  a map from field to value.
- Dexie's `update` merges a patch into a record (`Store.Updated`).
- The clock, fresh identifiers, the content digest, exiftool's metadata read
  and other effects outside the model are parameters.
- Main-process paths use POSIX separators.

## Model

| member | source | states |
|---|---|---|
| Store.Db.Get | src/db.ts:11-31 | the record is returned exactly when its id is a key of the images table |
| Store.Db.Put | src/db.ts:11-31 | the table maps the record's id to the record; nothing else changes |
| Store.Db.Add | src/db.ts:11-31 | succeeds exactly when the id is new, and then inserts it; otherwise the table is unchanged |
| Store.Db.Update | src/db.ts:11-31 | returns 1 and merges the changes into the record when the id exists, else returns 0 and changes nothing |
| Store.Db.Delete | src/db.ts:11-31 | removes exactly that key |
| Store.Db.BulkDelete | src/db.ts:11-31 | removes exactly the listed keys |
| Store.Db.BulkAdd | src/db.ts:11-31 | adds the records in order, skipping ids already present, and counts the skipped ones |
| Store.BulkAddedKeeps | src/db.ts:11-31 | a bulk add keeps every existing record and adds exactly the new ids |
| Store.BulkAddedFresh | src/db.ts:11-31 | records with fresh, distinct ids are all stored as given, with no failures |
| Store.UpdatedGet | src/db.ts:11-31 | after an update each field other than the id holds the change when one fits, else its old value |
| Store.Db.FirstBySrc | src/db.ts:28-30 | returns a key whose record has that src, and None exactly when no record has it |
| Store.Db.FirstByHash | src/db.ts:25-27 | returns a key whose record has that hash, and None exactly when no record has it |
| Store.Db.WithSource | src/db.ts:19-20 | the ids whose records belong to the source, and no others |
| Store.Db.DeleteWhereSource | src/db.ts:19-20 | removes exactly the records of that source |
| Store.Db.ReassignWhereSource | src/db.ts:19-20 | moves the records of one source to another, leaving all other fields and records alone |
| Store.Reassigned | src/db.ts:19-20 | same keys; no record keeps the old source; records of other sources are untouched |
| Store.Db.SourcesAdd | src/db.ts:21 | adds the source only when its id is new |
| Store.Db.SourcesPut | src/db.ts:21 | replaces the source with the same id in place, or appends it |
| Store.Db.SourcesUpdate | src/db.ts:21 | merges the changes into the source with that id; the others are unchanged |
| Store.Db.SourcesDelete | src/db.ts:21 | no source with that id remains and every other one is kept |
| Store.WithoutSource | src/db.ts:21 | keeps exactly the sources with a different id |
| Host.MainProcess.AllowedIff | electron/main.cjs:118-148 | a path is allowed exactly when it is non-empty and, case-insensitively, lies at or under the default vault or an allowed root |
| Host.FallbackAddsNothing | electron/main.cjs:118-148 | the lower-case string fallback accepts exactly what the path-relative test accepts |
| Host.SiblingNotAllowed | electron/main.cjs:118-148 | a sibling folder that shares a name prefix with a root is not inside it |
| Host.MainProcess.AddAllowedPath | electron/main.cjs:150-154 | a non-empty folder joins the allowed roots; an empty one changes nothing |
| Host.MainProcess.RemoveAllowedPath | electron/main.cjs:156-160 | a non-empty folder leaves the allowed roots |
| Host.MainProcess.AddToAllowedPaths | electron/main.cjs:976-980 | every non-empty path of the list becomes a root |
| Host.MainProcess.GetUniquePath | electron/main.cjs:163-174 | the result does not exist; it is the name itself when that is free, else the first numbered `stem_n.ext` candidate not taken; it keeps the name's extension |
| Host.NumberedInjective | electron/main.cjs:163-174 | different counters give different candidate names, so the search terminates |
| Host.NumberedExtSuffix | electron/main.cjs:163-174 | every numbered candidate of a name ends in that name's extension |
| Host.ExtSuffixBasename | electron/main.cjs:163-174 | a path's extension is kept by its base name and is what `path.extname` returns |
| Host.MainProcess.GetUniquePathHandler | electron/main.cjs:454-457 | an unauthorized directory gets the bare filename back; an allowed one gets a free path |
| Host.MainProcess.ReadFile | electron/main.cjs:311-318 | content is returned exactly when the directory is allowed and the file exists, and it is the file's content |
| Host.MainProcess.CalculateHash | electron/main.cjs:874-889 | a digest is returned exactly when the file is readable, and it is the digest of its content |
| Host.MainProcess.WriteFile | electron/main.cjs:262-309 | unauthorized gives "Unauthorized path" with no change; otherwise the directory is created and allowed, the path is ignored for 2000 ms, and on success the content is written and no temp file remains |
| Host.MainProcess.CopyToVault | electron/main.cjs:321-365 | the vault folder is created and allowed; success copies the content to a fresh unique target with its sidecars and ignores them for 3000 ms; failure leaves the files as they were |
| Host.MainProcess.SaveBlobToVault | electron/main.cjs:557-607 | as copy-to-vault, with the buffer as the content |
| Host.MainProcess.WriteVaultSidecars | electron/main.cjs:337-358 | writes the metadata sidecars of the target and ignores them together with it |
| Host.SidecarJsonSafe | electron/main.cjs:337-358 | the written `.json` sidecar never holds src or blob data and holds every other defined metadata field |
| Host.SidecarsKeepImage | electron/main.cjs:337-358 | writing sidecars never alters the image file itself |
| Host.MainProcess.RenameFile | electron/main.cjs:367-432 | unauthorized fails with no change; a case-only rename returns the old path unchanged; otherwise the image and its sidecars move to newPath when it is free, else to a free numbered path with the same extension, ignored for 5000 ms |
| Host.MainProcess.RenameInto | electron/main.cjs:381-431 | success moves the image and its sidecars to newPath, or to a free path with its extension when newPath is taken, and ignores both names; with no write fault it succeeds |
| Host.MainProcess.FreeTarget | electron/main.cjs:381-386 | newPath when it is free; otherwise a path that does not exist, with the same extension |
| Host.RenamedMovesImage | electron/main.cjs:367-432 | after a rename the target holds the old file's content |
| Host.MainProcess.TrashFile | electron/main.cjs:464-486 | unauthorized fails; otherwise the file and its sidecars are gone |
| Host.MainProcess.BackupFile | electron/main.cjs:489-518 | unauthorized fails; otherwise the undo buffer exists, and on success the backup path and base are returned with the image and its sidecars copied there |
| Host.BackupKeepsContent | electron/main.cjs:489-518 | copying the sidecars does not overwrite the backed-up image |
| Host.MainProcess.BackupNotCleanedUp | electron/main.cjs:489-503 | the backup of a file that is not itself a sidecar is none of the paths its trashing removes, so the trash cannot take the backup |
| Host.StampedNotCleanedUp | electron/main.cjs:494-503 | a copy of `p` in a folder, named with a `_<number>` stamp, is neither `p` nor a sidecar name, for every `p` and number |
| Host.MainProcess.CopySidecarFiles | electron/main.cjs:504-508 | exactly the sidecars that exist are copied to the other base |
| Host.MainProcess.RestoreFile | electron/main.cjs:521-543 | unauthorized or a missing backup fails with no change; otherwise the backup and its sidecars are copied back |
| Host.MainProcess.Mkdir | electron/main.cjs:546-555 | in an allowed parent the directory is created and allowed; otherwise nothing changes |
| Host.MainProcess.WriteMetadata | electron/main.cjs:730-768 | unauthorized gives "Unauthorized path"; otherwise the tags are merged into the embedded metadata and the file is ignored for 2000 ms |
| Host.ExifWriteData | electron/main.cjs:739-750 | each tag is present exactly when its field is given (Title, ImageDescription, a non-zero Rating, Keywords and Subject together) |
| Host.GetFsPath | electron/main.cjs:434-453 | an empty url fails; `file:///x` gives `/x`; a plain path is returned as it is |
| Host.MainProcess.WatcherForwards | electron/main.cjs:840-860 | the watcher forwards an event exactly when the lower-cased path is not ignored |
| Host.MainProcess.SelfWriteSuppressed | electron/main.cjs:840-860 | an event for a path the process itself is writing is never forwarded |
| Host.MainProcess.WatchFolder | electron/main.cjs:822-863 | a folder already watched changes nothing; a new one is watched and allowed |
| Host.MainProcess.UnwatchFolder | electron/main.cjs:865-872 | a watched folder stops being watched and allowed; any other call changes nothing |
| Host.MainProcess.BeforeQuit | electron/main.cjs:990-1002 | every watcher is closed and the allowed roots are cleared |
| Host.MainProcess.GetDefaultVaultPath | electron/main.cjs:633-651 | returns the default vault, which now exists and is allowed |
| Host.MainProcess.Tick | electron/main.cjs:299-301 | a due timer's paths stop being ignored; the timers that are not due remain |
| Host.MainProcess.ScanDirectory | electron/main.cjs:212-251 | a missing folder gives None; otherwise the folder is allowed and the list is exactly its image files, each once, with its basename |
| Host.ListFiles | electron/main.cjs:230-251 | the listing covers exactly the given image paths, without repeats, each with its basename |
| SyncEngine.Engine.ShouldSkipEvent | src/services/SyncEngine.ts:61-79 | skips exactly when a fingerprint with the same size and mtime is within the 5000 ms window; a stale entry is dropped |
| SyncEngine.MarkedThenSkipped | src/services/SyncEngine.ts:61-89 | an event marked as processed is skipped when it repeats inside the window |
| SyncEngine.UndefinedNeverSkipped | src/services/SyncEngine.ts:61-79 | an event without a size or an mtime is never skipped |
| SyncEngine.Engine.MarkEventProcessed | src/services/SyncEngine.ts:81-89 | records the event's fingerprint under its lower-cased path, replacing any older one |
| SyncEngine.Fingerprint | src/services/SyncEngine.ts:81-89 | the fingerprint holds the path and time, and a missing size or mtime as 0 |
| SyncEngine.Engine.Sweep | src/services/SyncEngine.ts:92-99 | keeps exactly the fingerprints that are not older than the window |
| SyncEngine.Swept | src/services/SyncEngine.ts:92-99 | a fingerprint survives exactly when it is at most 5000 ms old, and is unchanged |
| SyncEngine.Engine.IsLocked | src/services/SyncEngine.ts:105-107 | true exactly when the id holds the lock |
| SyncEngine.Engine.Lock | src/services/SyncEngine.ts:109-111 | the id joins the lock set |
| SyncEngine.Engine.Unlock | src/services/SyncEngine.ts:113-115 | the id leaves the lock set |
| SyncEngine.Engine.Log | src/services/SyncEngine.ts:139-151 | appends the entry to the bounded log |
| SyncEngine.Pushed | src/services/SyncEngine.ts:139-146 | the new entry is last; below 500 entries it is a plain append; a full log stays at 500 by dropping the oldest |
| SyncEngine.PushedFull | src/services/SyncEngine.ts:139-146 | pushing onto a full log drops exactly the first entry |
| SyncEngine.PushedAllBounded | src/services/SyncEngine.ts:139-146 | any number of pushes never grows the log beyond 500 |
| SyncEngine.Engine.GetSyncLog | src/services/SyncEngine.ts:153-155 | returns the log as it is |
| SyncEngine.Engine.ApplyPatch | src/services/SyncEngine.ts:159-210 | fails with "Lock timeout for id" and changes nothing when the lock is still held after the wait; otherwise it releases the lock, gives the record the merged patch (the patch, with the renamed file's src when the title renamed it), logs the update, and leaves in the allowed sidecar folder the `.json` sidecar of the merged record at the renamed path |
| SyncEngine.Engine.PatchLocked | src/services/SyncEngine.ts:167-207 | under the lock, an unknown id fails with not_found; a known one is merged, logged and sidecar-written |
| SyncEngine.RenameForPatch | src/services/SyncEngine.ts:176-190 | the merged patch is the patch itself, or, when a title change on a file-backed record renamed the file, the patch with the new `file://` src; no rename is attempted otherwise |
| SyncEngine.MergedRecord | src/services/SyncEngine.ts:176-190 | the merged record equals the patched one, apart from a new file:// src when a rename happened |
| SyncEngine.SidecarForPatch | src/services/SyncEngine.ts:196-199 | the `.json` sidecar next to the merged src (the renamed file after a rename) holds the sidecar object of the merged record, when its folder is allowed |
| SyncEngine.Engine.SaveNewImage | src/services/SyncEngine.ts:214-360 | no vault: "Vault path not configured"; no image data: NO_IMAGE_DATA; a write failure is logged as a failed save_new; success stores a record whose src is the file:// url of the saved path, the saved path holds the payload's bytes, and its `.json` sidecar holds the stored record's sidecar object when that folder is allowed |
| SyncEngine.SaveFile | src/services/SyncEngine.ts:229-301 | "Vault path not configured" and NO_IMAGE_DATA with no change; on success the saved path holds the bytes of the blob, or of the fetched data url, and ends in the extension chosen from the mime type unless it is still the `.tmp` file |
| SyncEngine.StoreImageFile | src/services/SyncEngine.ts:284-301 | a failure carries a message; success leaves exactly the data at the returned path, which keeps the file name's extension unless it is still the `.tmp` file |
| SyncEngine.RecordSaved | src/services/SyncEngine.ts:304-343 | a new id is stored as a new record, a forced existing id is repointed to the file, any other id is left alone |
| SyncEngine.NewSavedRecord | src/services/SyncEngine.ts:304-343 | a new saved record is internal and holds the id, src, date, title and prompt given |
| SyncEngine.RepointedRecord | src/services/SyncEngine.ts:308-314 | repointing sets src, makes the record internal and drops its blob, changing nothing else |
| SyncEngine.Engine.SaveFailed | src/services/SyncEngine.ts:354-358 | the failure result carries the message and is logged as a failed save_new |
| SyncEngine.Engine.OnFileEvent | src/services/SyncEngine.ts:364-392 | a duplicate event is exactly one that is skipped; otherwise the fingerprint is recorded and an add is handled as a new image file or a sidecar change by its extension |
| SyncEngine.Engine.Dispatch | src/services/SyncEngine.ts:377-391 | NewFile exactly for an added image file, SidecarChange exactly for a sidecar event, nothing else for other files |
| SyncEngine.ClassifyByExtension | src/services/SyncEngine.ts:377-379 | the lower-cased extension decides: watched image, json/txt sidecar, or other |
| SyncEngine.Engine.HandleNewFile | src/services/SyncEngine.ts:394-518 | the decision is the reference one; skip cases (tracked, same hash, unknown source) are logged as skipped; a file whose `.json` sidecar claims a stored id only gets its src updated (path_updated); otherwise the file is imported with the file:// src and the attributed source, or the failure is logged |
| SyncEngine.Engine.ReassociateLogged | src/services/SyncEngine.ts:413-417 | the claimed record's src becomes the file's URL, nothing else in the store changes, and one path_updated entry is logged |
| SyncEngine.Engine.ImportLogged | src/services/SyncEngine.ts:496-517 | a rejected add changes neither the store nor the log; otherwise the record pointing at the file with the attributed source is added under a free key and the import is logged |
| SyncEngine.CheckNewFile | src/services/SyncEngine.ts:398-494 | the decision is DecideNewFile of the store, the sidecar, the hash and the path |
| SyncEngine.ClaimedId | src/services/SyncEngine.ts:405-420 | a sidecar claims an id only when it names a stored record |
| SyncEngine.AttributeFile | src/services/SyncEngine.ts:459-494 | the source is the vault for a path inside it, else the first folder source whose path is a prefix |
| SyncEngine.InsideVaultIsInternal | src/services/SyncEngine.ts:462-471 | a path inside the vault is always attributed to the internal source |
| SyncEngine.BarePrefixAttribution | src/services/SyncEngine.ts:475-487 | the prefix test is bare: `/photos2/a.png` is attributed to the source at `/photos` |
| SyncEngine.FindSource | src/services/SyncEngine.ts:475-487 | returns the first matching source |
| SyncEngine.FirstSourceSpec | src/services/SyncEngine.ts:475-487 | None exactly when no source matches; otherwise the first index that matches |
| SyncEngine.NewFileImage | src/services/SyncEngine.ts:498-506 | the record is NewFileRecord of the files the metadata reader sees: the base record for the file:// url, the file name as title, the attributed source, the import time and the digest, with the EnrichedUpdates of those files applied |
| SyncEngine.NewFileRecordFields | src/services/SyncEngine.ts:498-506 | the imported record points at the file and carries the attributed source and the import time; its id, title and digest are the fresh id, the file name and the file's digest unless the `.json` sidecar names them |
| SyncEngine.OverriddenBase | src/services/SyncEngine.ts:498-504 | under any update without core fields the base record keeps the url, source and time of the overrides; id, title and digest stay unless the update names them |
| SyncEngine.ImportNewFile | src/services/SyncEngine.ts:498-515 | a rejected add changes neither the store nor the files; otherwise exactly NewFileRecord of the files before the import is added under a key that was free, pointing at the file with the attributed source, and where its folder is allowed and writable its `.json` sidecar holds that record |
| SyncEngine.AddWithSidecar | src/services/SyncEngine.ts:508-511 | the add succeeds exactly when the id is free; a rejected add changes nothing; otherwise the store gains exactly the record and, where allowed and writable, its `.json` sidecar holds it |
| SyncEngine.Engine.HandleSidecarChange | src/services/SyncEngine.ts:520-556 | no tracked image for any watched extension: logged no_matching_image with the store unchanged; otherwise the sidecar is applied to the first tracked image |
| SyncEngine.FindSidecarTarget | src/services/SyncEngine.ts:525-532 | finds the first watched extension whose image is tracked, or reports that none is |
| SyncEngine.Engine.ApplySidecar | src/services/SyncEngine.ts:539-555 | unreadable content changes nothing; unparsable JSON is logged as failed; an empty update is skipped; otherwise the changes are merged and logged |
| SyncEngine.SidecarEffectOf | src/services/SyncEngine.ts:543-550 | the changes a sidecar applies never include the id or the src |
| SyncEngine.JsonSidecarKeepsIdentity | src/services/SyncEngine.ts:543-550 | a JSON sidecar never changes a record's id or src |
| SyncEngine.TxtSidecarSetsPrompt | src/services/SyncEngine.ts:543-550 | a text sidecar sets exactly the prompt |
| SyncEngine.Engine.Reconcile | src/services/SyncEngine.ts:558-606 | without the API or a vault nothing changes; otherwise the store loses exactly its orphans, their count is returned, each removal is logged, then reconcile_complete |
| SyncEngine.Engine.RemoveOrphans | src/services/SyncEngine.ts:574-601 | removes exactly the file-backed records whose file is gone, logging each in order |
| SyncEngine.Engine.ReconcileOne | src/services/SyncEngine.ts:577-601 | one record is removed and logged exactly when its file is gone |
| SyncEngine.Orphans | src/services/SyncEngine.ts:574-601 | the orphans are a subset of the stored ids |
| SyncEngine.ReconcileIdempotent | src/services/SyncEngine.ts:558-606 | after a reconcile there are no orphans left |
| SyncEngine.DeleteFileFromDisk | src/services/SyncEngine.ts:610-661 | non-file or API-less images are skipped; linked files outside the vault are kept unless forced; otherwise a backup exists exactly when the folder is allowed, the file exists and the backup can be written; the files are then the backup (the image and its sidecars copied to the undo buffer) minus at most the file and its two pairs of sidecars; the backup holds the file's bytes unless the file is itself a `.json` or `.txt`; the file is gone where allowed |
| SyncEngine.BackupAndTrash | src/services/SyncEngine.ts:640-654 | the backup-file call then the trash: the same backup condition, frame and backup bytes as DeleteFileFromDisk |
| SyncEngine.TrashWithSidecars | src/services/SyncEngine.ts:648-654 | only the file, its sidecars and the `.txt`/`.json` next to its stem may go, nothing is written, and each of them is gone where its folder is allowed |
| SyncEngine.RenameImageFile | src/services/SyncEngine.ts:669-710 | no file path: no rename and nothing changes; a name equal up to letter case keeps the src and the files; otherwise the outcome is MoveImageFile's for the title-based name in the same folder |
| SyncEngine.RenameStaysInFolder | src/services/SyncEngine.ts:681-685 | the new name stays in the file's folder and keeps its extension |
| SyncEngine.MoveImageFile | src/services/SyncEngine.ts:691-706 | an unauthorized folder gives no rename and no change; with both folders allowed and no write fault it succeeds; success reports the `file://` url of the target, which is the new name or a free numbered path with its extension, the image and its sidecars are moved there, and the old sidecars are trashed where allowed |
| SyncEngine.WriteSidecar | src/services/SyncEngine.ts:712-755 | no sidecar base writes nothing; otherwise the `.json` holds SidecarObject and the `.txt` holds the prompt when it is non-empty, where the folder is allowed; no other file changes |
| SyncEngine.NotSidecarWrite | src/services/SyncEngine.ts:712-755 | an image or `.tmp` path is none of the four paths a sidecar write touches |
| SyncEngine.SavedNameHasExt | src/services/SyncEngine.ts:280-285 | the saved name `safeTitle.ext` ends in the chosen extension |
| SyncEngine.SavedSurvivesSidecar | src/services/SyncEngine.ts:284-343 | the saved image file is never overwritten by a sidecar write |
| SyncEngine.SidecarObjectKeys | src/services/SyncEngine.ts:732-744 | the object has exactly the sidecar fields, with negativePrompt and rating only when defined |
| SyncEngine.SidecarObjectValues | src/services/SyncEngine.ts:732-744 | every key holds the record's value, and the id holds the id given |
| SyncEngine.SidecarRoundTrip | src/services/SyncEngine.ts:732-744 | merging a record's own sidecar (minus id and src) back into it gives the record unchanged |
| DiskSync.PerformDiskSync | src/context/hooks/useDiskSync.ts:263-389 | a lock still held after the wait returns the stored record with nothing changed; otherwise the lock is released, a missing id gives the "Deleted" placeholder, an inactive sync shows the record, an active one follows Synced (phases, stored record, notices and the record returned: the local copy unless a save or rename replaced it), and the record only relocates |
| DiskSync.SyncLocked | src/context/hooks/useDiskSync.ts:272-385 | a missing record gives the placeholder with nothing changed; an inactive sync shows the stored record with nothing changed; an active one follows Synced, including the record returned |
| DiskSync.SyncActive | src/context/hooks/useDiskSync.ts:280-383 | the transfer and its completion satisfy Synced: which phases ran, the stored record after each, the notices, and the record returned, which is toUI of the local copy (the stored record with the source the reassignment left) unless a save or a rename replaced it with the stored one |
| DiskSync.Transfer | src/context/hooks/useDiskSync.ts:280-351 | relink, move out and copy in run exactly under their conditions; unless the copy in failed, the local copy is the stored record with the source the reassignment left |
| DiskSync.MovedLocal | src/context/hooks/useDiskSync.ts:319-342 | after any outcome of phase -1 the local copy is the stored record with the reassigned source |
| DiskSync.RelinkPhase | src/context/hooks/useDiskSync.ts:295-306 | a record under a linked folder is reassigned to that folder; otherwise the record stays |
| DiskSync.TargetVault | src/context/hooks/useDiskSync.ts:327-328 | None when no source has the id; otherwise the path of the first source with that id |
| DiskSync.MoveToTargetVault | src/context/hooks/useDiskSync.ts:330-337 | the round trip runs exactly when the original file still exists in the target folder, and then the record takes back its original src with only the local file and its sidecars trashed; otherwise the file is copied out (record repointed at the copy, which keeps the bytes) or, on failure, the record becomes internal and an error is shown |
| DiskSync.MoveOutPhase | src/context/hooks/useDiskSync.ts:319-342 | a record moved to another vault is either returned home or copied out; no target path or no move leaves the files alone; a round trip only removes the prior file and its sidecars; a copy-out leaves the files as the copy at a fresh target, its sidecars written, with at most the prior file and its sidecars removed, and the target holds the prior bytes unless it is sidecar-named; the step is a round trip exactly when the original file is still in the source's folder |
| DiskSync.HandleRoundTrip | src/context/hooks/useDiskSync.ts:21-61 | handled exactly when the original path lies in the target vault and still exists; then src is restored, and the files lose at most the local copy and its two sidecars, all gone where allowed; otherwise nothing changes |
| DiskSync.CopyToExternalVault | src/context/hooks/useDiskSync.ts:63-106 | a failed copy makes the record internal with an error notice; on success src points at a target that was free, the files are the copy with its sidecars written minus at most the local file and its sidecars, the target holds the local bytes unless it is sidecar-named, and the local file and sidecars are gone where allowed |
| DiskSync.CopyToLocalVault | src/context/hooks/useDiskSync.ts:108-154 | no file path changes nothing; a failure keeps the record with the safe source; success points src at a free vault target, drops the blob, makes it internal and keeps the old src as originalSrc; the files are the copy with its sidecars minus at most the original and its sidecars, the target holds the original bytes unless it is sidecar-named, and the original is gone where allowed |
| DiskSync.SaveMemoryToDisk | src/context/hooks/useDiskSync.ts:156-187 | no vault fails with no file change; no data fails; on success the record is repointed, internal and without blob, at a saved file that holds the image bytes; a failure leaves the store alone |
| DiskSync.HandleFileRename | src/context/hooks/useDiskSync.ts:189-240 | a rename is attempted exactly under RenameAttempted and succeeds in allowed, writable folders; success points src at the new path (the target when it was free), the file there holds the old bytes when neither name is sidecar-named, and the files are the rename minus at most the old file and sidecars, which are gone where allowed; otherwise nothing changes |
| DiskSync.TryRename | src/context/hooks/useDiskSync.ts:208-214 | a successful rename moves the file to the target, or to a free name when the target was taken, and the files are exactly Host.Renamed; in allowed folders without write faults it always succeeds |
| DiskSync.ClearOldFiles | src/context/hooks/useDiskSync.ts:218-229 | the old file and both pairs of sidecars are gone where allowed, and nothing else is removed or changed |
| DiskSync.TrashWithSidecars | src/context/hooks/useDiskSync.ts:50-53 | only the file, its two sidecars and the two sidecars of the given base may go, and they are gone where allowed |
| DiskSync.CopySurvives | src/context/hooks/useDiskSync.ts:76-101 | a copy that is not sidecar-named keeps its bytes through its own sidecar write and the clean-up of the source |
| DiskSync.RenameSurvives | src/context/hooks/useDiskSync.ts:206-229 | the renamed image keeps the old bytes through the clean-up of the old file and its sidecars |
| DiskSync.SyncMetadataAndSidecars | src/context/hooks/useDiskSync.ts:242-254 | an existing file in an allowed folder that can be written gets the record's metadata merged in; its `.json` sidecar, where allowed and writable, holds the record; no image-named path (no sidecar extension, no trailing digit) is created, removed or changed |
| DiskSync.FinishPhase | src/context/hooks/useDiskSync.ts:364-380 | an unresolved path changes nothing; the rename is attempted exactly under RenameAttempted and succeeds in allowed, writable folders; after it only the record's src changes, to the new path, which holds the old bytes when both names are image names; where allowed and writable, the `.json` sidecar of the final path holds the final record; an unrenamed record is shown as stored |
| DiskSync.Complete | src/context/hooks/useDiskSync.ts:353-383 | a failed save shows the stored record and reports the error; a save makes the record internal without blob; a rename changes only src; the record returned is toUI of the local copy unless a save or a rename replaced it, then toUI of the stored record |
| DiskSync.SyncGating | src/context/hooks/useDiskSync.ts:308-317 | a move-out happens exactly when MovesOut holds, and a copy-in exactly when NeedsCopyToLocal holds |
| DiskSync.RelinkedStaysPut | src/context/hooks/useDiskSync.ts:295-317 | a record just relinked in place is neither moved out nor copied in |
| DiskSync.ReassignmentIsSlashBounded | src/context/hooks/useDiskSync.ts:295-306 | an illustration of SeparatorBounded: `/photos2/a.png` is not under `/photos`, but `/photos/a.png` is |
| DiskSync.RoundTripInsideFolder | src/context/hooks/useDiskSync.ts:35-40 | a file inside the target folder returns home, with or without a trailing slash |
| DiskSync.RoundTripNotSibling | src/context/hooks/useDiskSync.ts:35-40 | an illustration of SiblingNotInFolder: the sibling `/ext2` of `/ext` does not count as home |
| DiskSync.SiblingNotInFolder | src/context/hooks/useDiskSync.ts:35-40 | for every folder and name, a path that continues the folder's last name without a separator is not inside it |
| DiskSync.ChildInFolder | src/context/hooks/useDiskSync.ts:35-40 | for every folder and name, the folder plus '/' plus the name is inside it |
| DiskSync.SeparatorBounded | src/context/hooks/useDiskSync.ts:295-306 | for every linked root: a source links every `root/…` and no sibling `root + s`, and a file at a sibling never returns home to the root |
| DiskSync.RelocatedTrans | src/context/hooks/useDiskSync.ts:263-389 | relocating twice is a relocation |
| DiskSync.LocationOnlyKeepsEditable | src/context/hooks/useDiskSync.ts:263-389 | a location-only patch leaves the editable fields alone |
| History.Stacks.PushHistory | src/context/hooks/useHistory.ts:25-28 | the action is appended to the history and the redo stack is cleared |
| History.Stacks.CanUndo | src/context/hooks/useHistory.ts:36 | true exactly when the history is non-empty |
| History.Stacks.CanRedo | src/context/hooks/useHistory.ts:37 | true exactly when the redo stack is non-empty |
| UndoRedo.Undo | src/context/hooks/useUndoRedo.ts:32-111 | an empty history changes nothing; otherwise the last action moves to the redo stack, the store is undone, and "Undo successful" is shown unless a re-add of a deleted record is rejected |
| UndoRedo.Redo | src/context/hooks/useUndoRedo.ts:113-145 | an empty redo stack changes nothing; otherwise the action returns to the history and is replayed |
| UndoRedo.RedoUndoes | src/context/hooks/useUndoRedo.ts:32-145 | redo after undo restores both stacks |
| UndoRedo.UndoRedoes | src/context/hooks/useUndoRedo.ts:32-145 | undo after redo restores both stacks |
| UndoRedo.ReplayAll | src/context/hooks/useUndoRedo.ts:101-107 | the editable fields equal those of the patches replayed in order; outside Electron the store is exactly that |
| UndoRedo.UpdateAndSync | src/context/hooks/useUndoRedo.ts:45-53 | an unknown id changes nothing; a known one is updated, then synced in place |
| UndoRedo.RestoreAll | src/context/hooks/useUndoRedo.ts:79-96 | with nothing restorable the files are unchanged |
| UndoRedo.RestoreOne | src/context/hooks/useUndoRedo.ts:79-96 | a deletion that cannot be restored leaves the files alone; otherwise, in an allowed folder, the backup is copied back to the record's path with its sidecars when it exists, and nothing changes when it does not |
| UndoRedo.ReplayedKeys | src/context/hooks/useUndoRedo.ts:101-107 | replaying patches never adds or removes records |
| UndoRedo.RelocatedSameEditable | src/context/hooks/useUndoRedo.ts:45-53 | a disk sync never changes the editable fields |
| Library.LibraryState.RefreshImages | src/context.tsx:120-201 | runs exactly when 2000 ms have passed; then lists every stored image, counts each source's images, allows folder paths in Electron, and falls back to the Local Vault alone when there are no sources |
| Library.Listing | src/context.tsx:130 | every stored record appears, with its src and colours defaulted as the UI shows them, and nothing else does; each key is taken once |
| Library.CountedSourcesFacts | src/context.tsx:163-175 | the Local Vault is always present and every count is that source's number of images |
| Library.FolderPaths | src/context.tsx:178-183 | exactly the non-empty paths of the folder sources |
| Library.ImagesWithDuplicates | src/context.tsx:45-70 | one entry per image, in order |
| Library.DuplicatesExact | src/context.tsx:45-70 | an image's duplicates are exactly the other images with its non-empty hash, each named by its source |
| Library.LibraryState.UpdateImage | src/context.tsx:628-682 | runs exactly when the id exists and is not locked; pushes the update with its undo payload unless skipHistory; the record only relocates after the safe patch; outside Electron the store is exact |
| Library.Safe | src/context.tsx:659-660 | the patch minus src and blob data |
| Library.UndoPayload | src/context.tsx:646-649 | the original values of exactly the updated fields |
| Library.UndoPayloadRestores | src/context.tsx:646-649 | applying the undo payload after the update gives the original record back |
| Library.UndoUndoesUpdate | src/context.tsx:628-682 | undoing an update restores every editable field |
| Library.UndoWritesBack | src/context.tsx:646-682 | the payload written back over a synced record restores the editable fields |
| Library.LibraryState.ToggleFavorite | src/context.tsx:1184-1192 | an unknown image does nothing; otherwise the rating becomes FavoriteRating and "Image favorited." or "Image unfavorited." is shown |
| Library.FavoriteRating | src/context.tsx:1184-1192 | rating 5 becomes 0, anything else becomes 5 |
| Library.LibraryState.WriteEnrichment | src/context.tsx:292-316 | writes exactly when the record exists and the protected patch is non-empty |
| Library.Protected | src/context.tsx:292-316 | drops exactly the guarded fields and keeps the others as given |
| Library.ProtectedKeepsUserFields | src/context.tsx:292-316 | a user's prompt, negative prompt, tags and rating survive enrichment |
| Library.KeepsPrompt | src/context.tsx:296-298 | a non-blank prompt survives enrichment |
| Library.KeepsNegativePrompt | src/context.tsx:300-302 | a non-blank negative prompt survives enrichment |
| Library.KeepsTags | src/context.tsx:304-306 | existing tags survive enrichment |
| Library.KeepsRating | src/context.tsx:308-310 | a positive rating survives enrichment |
| Library.BatchRename | src/context.tsx:684-729 | an empty plan does nothing; otherwise one batch action with the changes and their undos, "Renaming N items..." and "Successfully renamed N items.", and the store's editable fields equal the renames replayed |
| Library.Plan | src/context.tsx:703-706 | every planned rename is a target whose title changes |
| Library.PlanComplete | src/context.tsx:703-706 | every target whose title changes is planned |
| Library.PlanSound | src/context.tsx:703-706 | every planned rename comes from a target and its new title |
| Library.NewTitleShape | src/context.tsx:690-701 | a prompt-snippet title is non-empty and alphanumeric; a model-sequence title is at most 30 characters |
| Library.RenameAll | src/context.tsx:719-724 | the editable fields equal those of the changes replayed in order |
| Sources.RemoveSource | src/context/hooks/useSources.ts:31-56 | the Local Vault cannot be removed ("Cannot remove the Local Vault."); an unknown id does nothing; otherwise the source leaves the table and the list, its images are deleted or moved to the Local Vault, and an active view of it falls back to all sources |
| Sources.RenameSource | src/context/hooks/useSources.ts:58-69 | a blank name gives "Name cannot be empty." and no change; otherwise the trimmed name is stored and the success notice shown |
| Sources.AddSource | src/context/hooks/useSources.ts:71-75 | the source is put into the table and appended to the list |
| Sources.UpdateSource | src/context/hooks/useSources.ts:77-81 | only the source with that id is merged, in both the table and the list |
| Selection.SelectionState.SelectedImage | src/context/hooks/useSelection.ts:24-27 | the image with the selected id, or None exactly when there is no such image |
| Selection.SelectionState.SetSelectedImage | src/context/hooks/useSelection.ts:29-31 | selects the image's id, or clears the selection for none or an empty id |
| Selection.SelectionState.NavigateImage | src/context/hooks/useSelection.ts:33-42 | the selection becomes the Navigated reference |
| Selection.NavigateNoSelection | src/context/hooks/useSelection.ts:33-42 | with no selection in view, navigation changes nothing |
| Selection.NavigateStep | src/context/hooks/useSelection.ts:33-42 | navigation from a visible image always stays on a visible image |
| Selection.SelectionState.ToggleSelection | src/context/hooks/useSelection.ts:44-51 | the id flips in the selection set |
| Selection.ToggleTwice | src/context/hooks/useSelection.ts:44-51 | toggling twice restores the set |
| Selection.SelectionState.SelectAll | src/context/hooks/useSelection.ts:53-55 | the set holds exactly the ids given |
| Selection.SelectionState.ClearSelection | src/context/hooks/useSelection.ts:57-59 | the set is empty |
| Selection.CurrentView | src/context/hooks/useSelection.ts:35-36 | exactly the images of the active source, or all of them |
| Settings.UpdateAISettings | src/context/hooks/useSettings.ts:20-84 | the provider maps record the current model, url and key; switching provider loads that provider's remembered values or defaults |
| Settings.UpdateSyncsCurrent | src/context/hooks/useSettings.ts:20-84 | after any update the maps agree with the current model, url and key |
| Settings.UpdateWithoutSwitch | src/context/hooks/useSettings.ts:20-84 | without a provider switch each field takes the change or keeps its value |
| Settings.UpdateOnSwitch | src/context/hooks/useSettings.ts:20-84 | a switch loads the new provider's remembered non-empty values, else its defaults |
| Settings.SwitchAndBack | src/context/hooks/useSettings.ts:20-84 | switching away and back restores the original model, url and key |
| Settings.UpdateGeneralSettings | src/context/hooks/useSettings.ts:86-106 | merges the changes, normalizing a new non-empty local vault path |
| Settings.NormalizeVaultPath | src/context/hooks/useSettings.ts:90-100 | backslashes become slashes and the result is a prefix of that |
| Settings.NormalizeDropsImported | src/context/hooks/useSettings.ts:90-100 | a trailing `/imported` (any case, with or without a slash) is dropped |
| Settings.NormalizeKeeps | src/context/hooks/useSettings.ts:90-100 | a clean path without a trailing slash or `/imported` is kept |
| Toaster.Toasts.AddToast | src/hooks/useToaster.ts:12-24 | the toast is appended and its removal scheduled after Duration when that is positive |
| Toaster.Duration | src/hooks/useToaster.ts:17 | a custom duration wins; otherwise 8000 ms for errors and warnings, 4000 ms for the rest |
| Toaster.Toasts.RemoveToast | src/hooks/useToaster.ts:8-10 | keeps exactly the toasts with another id |
| Toaster.Toasts.Expire | src/hooks/useToaster.ts:19-23 | due removals drop their toasts; the others stay scheduled |
| Toaster.AddThenRemove | src/hooks/useToaster.ts:8-24 | removing a just-added toast restores the list |
| ImageFilter.FilterImages | src/hooks/useImageFilter.ts:27-120 | the Filtered images, deduplicated by key when all sources are shown |
| ImageFilter.Filtered | src/hooks/useImageFilter.ts:28-77 | an image is kept exactly when it matches the source, the search and the active category |
| ImageFilter.BlankFiltersNothing | src/hooks/useImageFilter.ts:28-77 | with no search and no filter, the result is the current view |
| ImageFilter.RatingLabel | src/hooks/useImageFilter.ts:66-68 | "Unrated" exactly for a missing or zero rating |
| ImageFilter.Priority | src/hooks/useImageFilter.ts:92-93 | internal or `file://` images have priority 2, the others 1 |
| ImageFilter.Dedup | src/hooks/useImageFilter.ts:80-101 | the loop computes Deduped |
| ImageFilter.Deduped | src/hooks/useImageFilter.ts:80-101 | one image per key, drawn from the input, covering every key |
| ImageFilter.SeenBest | src/hooks/useImageFilter.ts:80-101 | the kept image has the highest priority for its key, and the earliest among equals |
| ImageService.EnrichImageMetadata | src/services/imageService.ts:12-112 | non-file images get no updates and no change; for a file-backed image the updates are exactly EnrichedUpdates of the current files: the file reads, the metadata step on them, the colours; no core field is set, any update means a change, and missing colours always mean one |
| ImageService.EnrichedNoCore | src/services/imageService.ts:12-112 | the enrichment never sets src, blob, sourceId or date; without the API it sets only the colours |
| ImageService.EnrichedTxtItem | src/services/imageService.ts:48-58 | a non-empty `.txt` item keeps its text as prompt, model 'Text Metadata' and 512×512 through the metadata and colour steps |
| ImageService.EnrichedKeepsSidecar | src/services/imageService.ts:26-94 | the `.json` sidecar's truthy prompt survives the enrichment, and so do its safe fields that the metadata and colour steps do not compute |
| ImageService.ReadPhase | src/services/imageService.ts:20-58 | without the API nothing is read and there is no change; otherwise the updates are exactly ReadUpdates of the current files; a `.txt` item changes exactly when its text is non-empty, an image exactly when it has a JSON sidecar or the text fallback applies |
| ImageService.ReadUpdatesFacts | src/services/imageService.ts:20-58 | the reads set no core field; a non-empty `.txt` item gives prompt, model 'Text Metadata' and 512×512; for an image every field of the `.json` sidecar other than the core ones and the prompt is kept, and a truthy prompt too |
| ImageService.ReadSidecars | src/services/imageService.ts:26-46 | the updates are exactly SidecarUpdates of the two sidecars; a change exactly when there is a JSON sidecar or the `.txt` fallback applies; no core field; a truthy JSON prompt is kept |
| ImageService.SidecarUpdates | src/services/imageService.ts:26-46 | exactly the JSON sidecar's fields other than the core ones, plus the `.txt` text as prompt exactly when the JSON gave no truthy prompt and the text is non-empty; no core field |
| ImageService.TxtUpdates | src/services/imageService.ts:50-56 | exactly the prompt (the text), the model 'Text Metadata' and the size 512×512: no title and no core field is set |
| ImageService.MetadataPhase | src/services/imageService.ts:61-94 | no metadata leaves the updates alone; otherwise the updates are exactly MetadataUpdates, there is a change exactly when there was one or the result is non-empty, only metadata fields are added and a truthy prompt is kept |
| ImageService.MetadataUpdatesFacts | src/services/imageService.ts:61-94 | the metadata step adds only metadata fields, keeps the other updates and a truthy prompt, and adds no core field |
| ImageService.Candidates | src/services/imageService.ts:70-77 | one candidate for every metadata field |
| ImageService.ApplyMetadata | src/services/imageService.ts:79-86 | a candidate is set only when it differs from the record; other updates pass through |
| ImageService.ApplyMetadataFacts | src/services/imageService.ts:79-86 | only metadata fields are added, core fields stay out, and other updates are kept |
| ImageService.ColorPhase | src/services/imageService.ts:97-109 | missing colours are filled with the palette, or `#000000` without one, and always mean a change; existing colours are kept; no other field is touched |
| ImageService.WithColors | src/services/imageService.ts:97-109 | the colour step touches no field but the colours and adds no core field |
| ImageService.CreateBaseImage | src/services/imageService.ts:114-133 | the base record is never a duplicate |
| ImageService.CreateBaseGet | src/services/imageService.ts:114-133 | each field is the fitting override, else the default |
| ImageService.CreateBaseDefaults | src/services/imageService.ts:114-133 | without overrides: internal source, "New Image", steps 20, cfg 7, seed 0 and the other defaults |
| ImageService.NoCoreKeeps | src/services/imageService.ts:12-112 | a patch without core fields keeps src, blob, sourceId and date |
| Ai.ResolveOpenAIEndpoint | src/services/ai.ts:41-50 | the endpoint always ends in `/chat/completions` |
| Ai.EndpointKept | src/services/ai.ts:41-50 | a trimmed url that already ends in the route is kept |
| Ai.OpenRouterGetsApiPrefix | src/services/ai.ts:41-50 | an OpenRouter url without `/v1` gets `/api/v1` before the route |
| Ai.OtherGetsRoute | src/services/ai.ts:41-50 | any other url only gets the route appended |
| Ai.ResolveIdempotent | src/services/ai.ts:41-50 | resolving twice changes nothing |
| Ai.GetImageData | src/services/ai.ts:35-39 | a result splits a one-line data url into a non-empty mime type and payload; non-data urls give None |
| Ai.GetImageDataRoundTrip | src/services/ai.ts:35-39 | building a data url and parsing it gives back the mime type and payload |
| Utils.SanitizeFilename | src/utils.ts:212-215 | the result is non-empty, uses only allowed characters, has no outer spaces, and is "untitled" exactly when nothing remains |
| Utils.SanitizeIdempotent | src/utils.ts:212-215 | sanitizing twice changes nothing |
| Utils.ExtractTagsFromPrompt | src/utils.ts:290-342 | the loops compute ExtractedTags |
| Utils.ExtractedTagsValid | src/utils.ts:290-342 | the tags are distinct and each is valid; an empty prompt gives none |
| Utils.SingleWordTagged | src/utils.ts:290-342 | a one-word part whose cleaned form has 3 to 30 characters becomes a tag |
| Utils.GetAspectRatioBucket | src/utils.ts:344-350 | unknown exactly for a zero side; landscape above 1.2, portrait below 0.85, square between |
| Utils.LandscapeIff | src/utils.ts:344-350 | the same buckets in integer arithmetic |
| Utils.NormalizePathAsWrittenLosesRoot | src/utils.ts:353-384 | as written, a POSIX `file:///` url loses its root slash |
| Utils.NormalizeFileUrl | src/utils.ts:353-384 | corrected, `file://` plus an absolute POSIX path gives the path back |
| Utils.NormalizeWindowsUrl | src/utils.ts:353-384 | a Windows `file:///C:/...` url becomes `C:\...` |
| Utils.ToMediaUrl | src/utils.ts:387-403 | empty exactly for an empty path; otherwise a `media://` url with no backslash, and an existing one is kept |
| Utils.ToMediaUrlOfFileUrl | src/utils.ts:387-403 | a POSIX `file://` url becomes `media://` followed by the same absolute path |
| Utils.ToMediaUrlIdempotent | src/utils.ts:387-403 | converting twice changes nothing |
| GenerationData.ParseGenerationData | src/utils.ts:3-207 | computes the GenerationData reference |
| GenerationData.RunLines | src/utils.ts:119-200 | the line loop computes the ParseLines fold |
| GenerationData.LineStep | src/utils.ts:123-189 | one loop iteration is one Step of the fold |
| GenerationData.EarlyReturns | src/utils.ts:5-107 | empty text gives an empty result; a prompt already found in the structured stage is returned as it is |
| GenerationData.BraceTextNotLineParsed | src/utils.ts:110-117 | text starting with `{` never reaches the line parser: every field other than the prompt is the structured one |
| GenerationData.ParamsLineFreezes | src/utils.ts:128-179 | lines after the parameter line never change the result |
| GenerationData.NegativeSplit | src/utils.ts:182-200 | prompt lines before `Negative prompt:` form the prompt and the lines after form the negative prompt |
| GenerationData.ParamsDefaults | src/utils.ts:135-138 | a parameter line without digits gives steps 20 and seed 0 |
| GenerationData.ParamsRead | src/utils.ts:135 | `Steps: n` is read as n |
| GenerationData.TakeDigits | src/utils.ts:135-138 | the longest prefix of digits, `\d+`: all digits, and the next character is not one |
| GenerationData.TakeUntilComma | src/utils.ts:136-139 | the longest prefix without a comma, `[^,]+`: stops at the first comma or the end |
| GenerationData.TakeNumberChars | src/utils.ts:137 | the longest prefix of digits and dots, `[\d.]+`: all digits or dots, and the next character is neither |
| GenerationData.SizeRead | src/utils.ts:174-178 | `Size: WxH` sets width W and height H |
| GenerationData.SizePatchOther | src/utils.ts:174-178 | the size match touches only width and height |
| GenerationData.DigitsValueOfString | src/utils.ts:135 | reading a number's decimal digits gives the number back |
| Duplicates.DuplicateState.ResolveDuplicates | src/context/hooks/useDuplicates.ts:38-100 | no pending import does nothing; an empty final batch says "Import skipped. N duplicates found."; otherwise every image is saved or kept, the batch is added, and the success notice gives the counts; pending is always cleared |
| Duplicates.FinalBatch | src/context/hooks/useDuplicates.ts:42-55 | skip keeps the new images; keep appends the duplicates, unmarked |
| Duplicates.Counts | src/context/hooks/useDuplicates.ts:42-55 | imported and skipped add up to all pending images |
| Duplicates.SaveOne | src/context/hooks/useDuplicates.ts:63-88 | an in-memory image is saved to the vault and pointed at a file holding its bytes, and always so when no write fails; other images and the files are kept; files are never removed and only sidecar-named ones overwritten |
| Duplicates.SaveDeferred | src/context/hooks/useDuplicates.ts:63-88 | every image is saved or kept, each changed one points at a file that still holds its bytes after the whole batch, and every in-memory one is saved when no write fails |
| Duplicates.SaveBlobFrame | electron/main.cjs:557-607 | saving a blob to a fresh path keeps every existing non-sidecar file and leaves the bytes at the target |
| Duplicates.BlobExt | src/context/hooks/useDuplicates.ts:66 | every mime type gets a non-empty extension |
| Imports.Importer.AddLocalFolder | src/context.tsx:777-840 | cancel does nothing; an overlap warns "Folder overlaps with existing vault: name"; skipPreview creates the source with "Vault \"name\" created"; otherwise the import waits for preview under the folder's last segment or "Local Vault"; the folder is allowed |
| Imports.FindOverlap | src/context.tsx:796-815 | None exactly when no source overlaps the folder; otherwise one that does |
| Imports.NestedOverlaps | src/context.tsx:796-815 | nested folders overlap both ways |
| Imports.SameFolderOverlaps | src/context.tsx:796-815 | a folder overlaps itself under any spelling |
| Imports.SiblingDoesNotOverlap | src/context.tsx:796-815 | `/vaultA` and `/vaultA-backup` do not overlap |
| Imports.LastSegment | src/context.tsx:793 | the trailing part after the last separator |
| Imports.CreateFolderSource | src/context.tsx:818-831 | the source is appended to the list and stored, and "Vault \"name\" created" is shown |
| Imports.SelectFolder | electron/main.cjs:180-218 | cancel gives None; otherwise the chosen folder, allowed, with exactly its image files |
| Imports.Importer.ConfirmImport | src/context.tsx:864-1030 | the pending import is cleared; the source is linked; duplicates go to the conflict dialog under the folder name or "Linked Folder" with the store unchanged; otherwise the entries are added and the outcome notices shown |
| Imports.LinkSource | src/context.tsx:871-891 | a folder already linked reuses its source; a new one is added under a fresh id; internal imports stay internal |
| Imports.ImportSourceId | src/context.tsx:871-891 | the source id an import uses |
| Imports.Classify | src/context.tsx:977-983 | the loop computes Bucketed |
| Imports.BucketedIsRule | src/context.tsx:977-983 | entries are the items whose hash is neither stored nor seen earlier, and duplicates are the rest |
| Imports.DupeCases | src/context.tsx:977-983 | an empty hash is never a duplicate; a stored hash always is |
| Imports.UploadFiles | src/context.tsx:1035-1160 | nothing to process does nothing; duplicates go to the conflict dialog; otherwise files are saved (each changed record points at a file holding its bytes), added and announced |
| Imports.Grouped | src/context.tsx:1039-1050 | one distinct group per base name of a visible file |
| Imports.GroupedImage | src/context.tsx:1039-1050 | a group's image is the last image file with that base name |
| Imports.NoCountNoImage | src/context.tsx:1052 | with no image files there is no group image |
| Imports.StoreUploads | src/context.tsx:1125-1151 | outside a vault the entries are stored as given with no file change; inside, each in-memory entry is saved first, to a file that holds its bytes, and always so when no write fails; the store gets exactly the saved batch and the outcome notice |
| Imports.SaveUpload | src/context.tsx:1131-1146 | a record with a blob is saved to the vault and repointed at a file holding its bytes, and always so when no write fails; one without is unchanged |
| Rescan.CheckActiveSource | src/context.tsx:1198-1335 | outside Electron or without scanning nothing happens; an unknown specific source gives "Cannot determine source to scan."; otherwise every chosen source is synced, between the start and done notices |
| Rescan.SyncSources | src/context.tsx:1204-1206 | all sources, or exactly the active one |
| Rescan.SyncSource | src/context.tsx:1227-1323 | the source's folder is scanned and its records brought in line with it |
| Rescan.SyncFiles | src/context.tsx:1265-1323 | scanned files are attributed or added, and missing records are removed |
| Rescan.ScanFiles | src/context.tsx:1265-1305 | the store is the ScanApplied reference and the count is the added count |
| Rescan.BuildKnown | src/context.tsx:1254-1261 | computes KnownPaths |
| Rescan.KnownPathsComplete | src/context.tsx:1254-1261 | every image with a src is known under its path key |
| Rescan.CollectMissing | src/context.tsx:1310-1319 | computes Missing |
| Rescan.MissingExact | src/context.tsx:1310-1319 | an id is missing exactly when its image belongs to the source and its file is gone |
| Rescan.NotMissing | src/context.tsx:1310-1319 | images of other sources are never removed |
| Rescan.ScanAttributes | src/context.tsx:1265-1305 | a known file is reassigned to the scanned source; an unknown one is added as new |
| Rescan.SourceSyncedMoves | src/context.tsx:1265-1323 | a known file ends up attributed to the source |
| Rescan.SourceSyncedAdds | src/context.tsx:1265-1323 | a new file ends up stored under the source |
| Rescan.SourceSyncedRemoves | src/context.tsx:1265-1323 | a record whose file is gone ends up removed |

## Left out

- File I/O itself is abstract: exiftool, the trash, dialogs, the file watcher's set-up, dominant-colour extraction, hashing and `decodeURIComponent` are parameters or are not modelled.
- The renderer's `window.electron` calls are direct calls into `Host.MainProcess`. Promise interleaving and concurrency are not modelled, except for the update lock and the 500 ms lock wait. The wait becomes the boolean `heldAfterWait`.
- Time, fresh ids (`generateId`, `crypto.randomUUID`) and the `Date` to ISO conversion are parameters. The `RangeError` from a record with no date is not modelled.
- The JSON stages of parseGenerationData (`JSON.parse`, extraMetadata) are an input patch. The line parser and the early returns are modelled.
- Records carry no LoRA list. So the parameter-line branch of parseGenerationData does not model the `<lora:…>` tags it collects from the prompt (src/utils.ts:141-148). It also does not model its Civitai resources, which give the model name and more LoRAs (src/utils.ts:150-172). That branch sets only steps, sampler, cfg scale, seed, model and size.
- ImageService.MetadataPhase: the `loras` update (src/services/imageService.ts:87) is not modelled, because records carry no LoRA list.
- Utils.ToMediaUrl: `encodeURIComponent` is the identity on each segment; the path is not percent-encoded. It uses the corrected normalizePath (see Findings), so a POSIX `file:///` url keeps its root slash.
- ImageService.ReadPhase: reads the `.txt` item at the path that the corrected normalizePath gives (see Findings), and `decodeURIComponent` is the identity. As written, a POSIX `file:///` src gives a relative path, read-file refuses it, and no `.txt` prompt is applied.
- ImageService.ReadSidecars: reads the sidecars next to the corrected path. As written, on POSIX the relative path is refused by read-file and no sidecar is applied.
- ImageService.EnrichImageMetadata: reads the files at the corrected path, so its sidecar and `.txt` updates are the ones the corrected program makes. `Rescan.PathKey` and `SyncEngine.InVault` also use the corrected normalizePath.
- Strings.Lower: folds only ASCII letters. `toLowerCase()` also folds non-ASCII letters. Case-insensitive comparisons therefore differ from the source on non-ASCII paths. These are the allowed-path test, the ignored paths, event fingerprints, folder overlap and rescan keys.
- Strings.IsSpace: is the ASCII white space only. JavaScript's `trim` and `\s` also strip Unicode spaces such as U+00A0.
- Floating point is left out: cfg scale is an integer and `parseFloat` is not modelled. The aspect-ratio buckets use exact rationals.
- JavaScript object key order and Dexie's iteration order are not modelled.
- Library.Listing: lists every stored record exactly once, in an unspecified order. The source orders `ui.images` by date, newest first.
- The calls to `refreshImages` that follow a sync, an import, a rename or an undo are not modelled. RefreshImages is modelled on its own.
- The catch-all "Scan encountered an error." in checkActiveSource and the `put` failure inside a scan are not modelled. The model's store calls do not throw.
- generateBatchCaptions and the other network calls of ai.ts are not modelled; only the endpoint and data-url helpers are.
- The browser branches are not modelled: the `<input type=file>` fallback of addLocalFolder, and the blob-URL imports of confirmImport and uploadFiles. Electron is the modelled platform.
- The renderer's `win32` path branches are not modelled, apart from the `win32` flag of normalizePath and toMediaUrl.
- Undo and redo have no in-flight guard in the model.
- Writing settings with `db.settings.put`, and reading them back, are not modelled.
- Store.Db.FirstBySrc: returns some matching key, not Dexie's first in primary-key order.
- Store.Db.FirstByHash: returns some matching key, not Dexie's first in primary-key order.
- SyncEngine.Engine.ApplyPatch: states the record, the log and the `.json` sidecar. The renamed image file itself is stated by SyncEngine.RenameImageFile and SyncEngine.MoveImageFile, which ApplyPatch calls.
- SyncEngine.SaveFile: the saved path ends in the chosen extension or is still the `.tmp` file. The model does not rule out the second case, in which rename-file treats the final name as a case-only rename of the temporary file.
- SyncEngine.StoreImageFile: the same `.tmp` case as SaveFile is left open.
- UndoRedo.RestoreAll: only states the case where nothing is restorable, because the restores go through the backup files.
- SyncEngine.DeleteFileFromDisk: the backup's bytes are stated only when the deleted file is not itself a `.json` or `.txt`. For such a file, backup-file's sidecar copy targets the backup path itself.
- DiskSync.Transfer, DiskSync.Complete, DiskSync.SyncActive and DiskSync.PerformDiskSync: state the stored record, the notices and the record returned; the disk effects of each step are stated by the phase methods they call.
- DiskSync.CopyToExternalVault, DiskSync.CopyToLocalVault, DiskSync.MoveOutPhase, DiskSync.HandleFileRename and DiskSync.FinishPhase: the target's bytes are stated only when its name is not a sidecar name. A target named like `x.json` is its own `.json` sidecar, or one of the sidecars the clean-up trashes.
- DiskSync.FinishPhase: states the bytes at the final path only when that path is image-named (no sidecar extension, no trailing digit), because the sidecar write may touch such a name through its temporary files.
- Every main-process writer adds its paths to the ignored set before it does the I/O. On a failure it returns without scheduling the cleanup timer. The model keeps this: the failure contracts only say the ignored set does not shrink.

## Findings

| source | as written | input that shows it | evidently intended | confidence | as-written member | corrected member |
|---|---|---|---|---|---|---|
| src/utils.ts:353-384 | the scheme prefix `file:` is stripped with `\/{2,3}`, which also removes the root slash of a POSIX `file:///` url | `"file:///home/u/a.png"` gives `"home/u/a.png"` | `"/home/u/a.png"`: strip only the two slashes of the URL syntax and let the `/C:` rule handle Windows drives | not executed | Utils.NormalizePathAsWrittenLosesRoot | Utils.NormalizeFileUrl |
