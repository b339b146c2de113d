/**
 * useSources (src/context/hooks/useSources.ts): unlinking, renaming, adding
 * and updating library sources, in the store and in the source list on screen.
 * Each operation returns the toast it shows, if any.
 */
module Sources {
  import opened Wrappers
  import opened Strings
  import opened Model
  import opened Store
  import opened AppState
  import Toaster

  /** `sources.find(s => s.id === id)` */
  function Find(ss: seq<LibrarySource>, id: string): (r: Option<LibrarySource>)
    ensures r.Some? ==> r.value in ss && r.value.id == id
    ensures r.None? <==> forall s :: s in ss ==> s.id != id
  {
    if ss == [] then None
    else if ss[0].id == id then Some(ss[0])
    else Find(ss[1..], id)
  }

  function UnlinkedMessage(name: string): string
  {
    "Folder \"" + name + "\" has been unlinked."
  }

  /**
   * removeSource (useSources.ts:31-56). The Local Vault cannot be removed and
   * an id missing from the list is ignored; otherwise the source's images are
   * deleted or moved to the Local Vault, the source leaves the store and the
   * list, and a view filtered on it falls back to 'all'.
   */
  method RemoveSource(db: Db, ui: Ui, sourceId: string, deleteImages: bool) returns (notice: Option<Notice>)
    modifies db`images, db`sources, ui`sources, ui`activeSourceId
    ensures sourceId == INTERNAL ==> notice == Some(Notice(Toaster.Error, "Cannot remove the Local Vault."))
    ensures sourceId != INTERNAL && Find(old(ui.sources), sourceId).None? ==> notice == None
    ensures sourceId == INTERNAL || Find(old(ui.sources), sourceId).None? ==>
      db.images == old(db.images) && db.sources == old(db.sources) &&
      ui.sources == old(ui.sources) && ui.activeSourceId == old(ui.activeSourceId)
    ensures sourceId != INTERNAL && Find(old(ui.sources), sourceId).Some? ==>
      && db.images == (if deleteImages then old(db.images) - old(db.WithSource(sourceId))
                       else Reassigned(old(db.images), sourceId, INTERNAL))
      && (forall id :: id in db.images ==> db.images[id].sourceId != sourceId)
      && db.sources == WithoutSource(old(db.sources), sourceId)
      && ui.sources == WithoutSource(old(ui.sources), sourceId)
      && ui.activeSourceId == (if old(ui.activeSourceId) == sourceId then ALL else old(ui.activeSourceId))
      && notice == Some(Notice(Toaster.Success, UnlinkedMessage(Find(old(ui.sources), sourceId).value.name)))
  {
    if sourceId == INTERNAL {
      return Some(Notice(Toaster.Error, "Cannot remove the Local Vault."));
    }
    var source := Find(ui.sources, sourceId);
    if source.None? {
      return None;
    }
    if deleteImages {
      db.DeleteWhereSource(sourceId);
    } else {
      db.ReassignWhereSource(sourceId, INTERNAL);
    }
    db.SourcesDelete(sourceId);
    ui.sources := WithoutSource(ui.sources, sourceId);
    if ui.activeSourceId == sourceId {
      ui.activeSourceId := ALL;
    }
    notice := Some(Notice(Toaster.Success, UnlinkedMessage(source.value.name)));
  }

  /** `{ ...s, name }` */
  function Renamed(s: LibrarySource, name: string): LibrarySource
  {
    MergeSource(s, SourceChanges(Some(name), None, None))
  }

  /**
   * renameSource (useSources.ts:58-69): a blank name is refused; otherwise the
   * trimmed name is stored on that source, in the store and in the list, and
   * every other source is left as it was.
   */
  method RenameSource(db: Db, ui: Ui, sourceId: string, newName: string) returns (notice: Notice)
    modifies db`sources, ui`sources
    ensures Trim(newName) == "" <==> notice == Notice(Toaster.Error, "Name cannot be empty.")
    ensures Trim(newName) == "" ==> db.sources == old(db.sources) && ui.sources == old(ui.sources)
    ensures Trim(newName) != "" ==>
      && notice == Notice(Toaster.Success, "Folder renamed successfully.")
      && |db.sources| == |old(db.sources)| && |ui.sources| == |old(ui.sources)|
      && (forall i :: 0 <= i < |db.sources| ==>
            db.sources[i] == if old(db.sources)[i].id == sourceId then old(db.sources)[i].(name := Trim(newName)) else old(db.sources)[i])
      && (forall i :: 0 <= i < |ui.sources| ==>
            ui.sources[i] == if old(ui.sources)[i].id == sourceId then old(ui.sources)[i].(name := Trim(newName)) else old(ui.sources)[i])
  {
    var trimmed := Trim(newName);
    if trimmed == "" {
      return Notice(Toaster.Error, "Name cannot be empty.");
    }
    db.SourcesUpdate(sourceId, SourceChanges(Some(trimmed), None, None));
    ui.sources := ReplaceSource(ui.sources, sourceId, (s: LibrarySource) => Renamed(s, trimmed));
    notice := Notice(Toaster.Success, "Folder renamed successfully.");
  }

  /** addSource (useSources.ts:71-75): `sources.put(source)` and the source appended to the list. */
  method AddSource(db: Db, ui: Ui, source: LibrarySource)
    modifies db`sources, ui`sources
    ensures old(db.HasSource(source.id)) ==>
      |db.sources| == |old(db.sources)| &&
      forall i :: 0 <= i < |db.sources| ==> db.sources[i] == if old(db.sources)[i].id == source.id then source else old(db.sources)[i]
    ensures !old(db.HasSource(source.id)) ==> db.sources == old(db.sources) + [source]
    ensures ui.sources == old(ui.sources) + [source]
  {
    db.SourcesPut(source);
    ui.sources := ui.sources + [source];
  }

  /** updateSource (useSources.ts:77-81): the given fields are merged into that source only. */
  method UpdateSource(db: Db, ui: Ui, sourceId: string, updates: SourceChanges)
    modifies db`sources, ui`sources
    ensures |db.sources| == |old(db.sources)| && |ui.sources| == |old(ui.sources)|
    ensures forall i :: 0 <= i < |db.sources| ==>
      db.sources[i] == if old(db.sources)[i].id == sourceId then MergeSource(old(db.sources)[i], updates) else old(db.sources)[i]
    ensures forall i :: 0 <= i < |ui.sources| ==>
      ui.sources[i] == if old(ui.sources)[i].id == sourceId then MergeSource(old(ui.sources)[i], updates) else old(ui.sources)[i]
  {
    db.SourcesUpdate(sourceId, updates);
    ui.sources := ReplaceSource(ui.sources, sourceId, (s: LibrarySource) => MergeSource(s, updates));
  }
}
