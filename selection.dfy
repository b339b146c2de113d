/**
 * useSelection (src/context/hooks/useSelection.ts): the image opened in the
 * editor (`selectedId`) and the set of images ticked for a batch action
 * (`selectedIds`). The hook's inputs, the image list and the active source,
 * are parameters of the members that read them.
 */
module Selection {
  import opened Wrappers
  import opened Model

  /** `prev` with `id` added when it was absent and removed when it was present. */
  function Toggled(s: set<string>, id: string): (r: set<string>)
    ensures forall x :: x in r <==> (x in s <==> x != id)
  {
    if id in s then s - {id} else s + {id}
  }

  /** Toggling the same id twice gives the set back. */
  lemma ToggleTwice(s: set<string>, id: string)
    ensures Toggled(Toggled(s, id), id) == s
  {
  }

  /** The set of the ids of a list. */
  function IdSet(ids: seq<string>): (r: set<string>)
    ensures forall x :: x in r <==> x in ids
  {
    set i | 0 <= i < |ids| :: ids[i]
  }

  /** `images.filter(img => activeSourceId === 'all' || img.sourceId === activeSourceId)` */
  function CurrentView(images: seq<ImageRecord>, activeSourceId: string): (v: seq<ImageRecord>)
    ensures |v| <= |images|
    ensures forall r :: r in v <==> r in images && (activeSourceId == "all" || r.sourceId == activeSourceId)
  {
    if images == [] then []
    else
      var rest := CurrentView(images[1..], activeSourceId);
      if activeSourceId == "all" || images[0].sourceId == activeSourceId then [images[0]] + rest else rest
  }

  /** `findIndex(img => img.id === id)`: the first index holding that id, or -1. */
  function FindIndex(images: seq<ImageRecord>, id: string): (k: int)
    ensures -1 <= k < |images|
    ensures k >= 0 ==> images[k].id == id && forall j :: 0 <= j < k ==> images[j].id != id
    ensures k == -1 <==> forall j :: 0 <= j < |images| ==> images[j].id != id
  {
    if images == [] then -1
    else if images[0].id == id then 0
    else
      var k := FindIndex(images[1..], id);
      if k == -1 then -1 else k + 1
  }

  /** A falsy id (`null` or the empty string) selects nothing. */
  predicate Selected(selectedId: Option<string>)
  {
    selectedId.Some? && selectedId.value != ""
  }

  datatype Direction = Next | Prev

  /** The id navigateImage selects: the neighbour in the current view, when there is one. */
  function Navigated(images: seq<ImageRecord>, activeSourceId: string, selectedId: Option<string>, direction: Direction): Option<string>
  {
    if !Selected(selectedId) then selectedId else Moved(CurrentView(images, activeSourceId), selectedId, direction)
  }

  /** The step inside a view: the neighbour of the selected image, the same id at either end, or the same id when it is not in the view. */
  function Moved(view: seq<ImageRecord>, selectedId: Option<string>, direction: Direction): Option<string>
    requires selectedId.Some?
  {
    var k := FindIndex(view, selectedId.value);
    if k == -1 then selectedId
    else
      var n := if direction == Next then k + 1 else k - 1;
      if 0 <= n < |view| then Some(view[n].id) else selectedId
  }

  /** Nothing selected, or a selection outside the current view: navigating changes nothing. */
  lemma NavigateNoSelection(images: seq<ImageRecord>, activeSourceId: string, selectedId: Option<string>, direction: Direction)
    requires !Selected(selectedId) || forall r :: r in CurrentView(images, activeSourceId) ==> r.id != selectedId.value
    ensures Navigated(images, activeSourceId, selectedId, direction) == selectedId
  {
    if Selected(selectedId) {
      var view := CurrentView(images, activeSourceId);
      forall j | 0 <= j < |view| ensures view[j].id != selectedId.value {
        assert view[j] in view;
      }
    }
  }

  /**
   * Otherwise the new selection is the image one step away in the current
   * view in the chosen direction, or the old one at either end of the view:
   * it never leaves the view.
   */
  lemma NavigateStep(images: seq<ImageRecord>, activeSourceId: string, selectedId: Option<string>, direction: Direction)
    requires Selected(selectedId)
    requires FindIndex(CurrentView(images, activeSourceId), selectedId.value) != -1
    ensures var r := Navigated(images, activeSourceId, selectedId, direction);
      r.Some? && exists img :: img in CurrentView(images, activeSourceId) && img.id == r.value
  {
    NeighbourInView(CurrentView(images, activeSourceId), selectedId, direction);
  }

  lemma NeighbourInView(view: seq<ImageRecord>, selectedId: Option<string>, direction: Direction)
    requires selectedId.Some? && FindIndex(view, selectedId.value) != -1
    ensures var r := Moved(view, selectedId, direction);
      r.Some? && exists img :: img in view && img.id == r.value
  {
    var k := FindIndex(view, selectedId.value);
    var n := if direction == Next then k + 1 else k - 1;
    if 0 <= n < |view| {
      assert view[n] in view;
    } else {
      assert view[k] in view;
    }
  }

  /** `images.find(img => img.id === selectedId) || null`, and null for a falsy id. */
  function Lookup(images: seq<ImageRecord>, selectedId: Option<string>): (r: Option<ImageRecord>)
    ensures r.Some? ==> Selected(selectedId) && r.value in images && r.value.id == selectedId.value
    ensures r.None? <==> !Selected(selectedId) || forall img :: img in images ==> img.id != selectedId.value
  {
    if !Selected(selectedId) then None
    else
      var k := FindIndex(images, selectedId.value);
      if k == -1 then
        assert forall img :: img in images ==> img.id != selectedId.value;
        None
      else Some(images[k])
  }

  class SelectionState {
    var selectedId: Option<string>
    var selectedIds: set<string>

    constructor ()
      ensures selectedId == None && selectedIds == {}
    {
      selectedId := None;
      selectedIds := {};
    }

    /** selectedImage (useSelection.ts:24-27) */
    function SelectedImage(images: seq<ImageRecord>): (r: Option<ImageRecord>)
      reads this`selectedId
      ensures r.Some? ==> r.value in images && Some(r.value.id) == selectedId
      ensures r.None? <==> !Selected(selectedId) || forall img :: img in images ==> img.id != selectedId.value
    {
      Lookup(images, selectedId)
    }

    /** setSelectedImage (useSelection.ts:29-31): `image?.id || null` */
    method SetSelectedImage(image: Option<ImageRecord>)
      modifies this`selectedId
      ensures image.Some? && image.value.id != "" ==> selectedId == Some(image.value.id)
      ensures image.None? || image.value.id == "" ==> selectedId == None
    {
      if image.Some? && image.value.id != "" {
        selectedId := Some(image.value.id);
      } else {
        selectedId := None;
      }
    }

    /** navigateImage (useSelection.ts:33-42) */
    method NavigateImage(images: seq<ImageRecord>, activeSourceId: string, direction: Direction)
      modifies this`selectedId
      ensures selectedId == Navigated(images, activeSourceId, old(selectedId), direction)
    {
      if !Selected(selectedId) {
        return;
      }
      var view := CurrentView(images, activeSourceId);
      var currentIndex := FindIndex(view, selectedId.value);
      if currentIndex == -1 {
        return;
      }
      var newIndex := if direction == Next then currentIndex + 1 else currentIndex - 1;
      if 0 <= newIndex < |view| {
        selectedId := Some(view[newIndex].id);
      }
    }

    /** toggleSelection (useSelection.ts:44-51) */
    method ToggleSelection(id: string)
      modifies this`selectedIds
      ensures selectedIds == Toggled(old(selectedIds), id)
    {
      var newSet := selectedIds;
      if id in newSet {
        newSet := newSet - {id};
      } else {
        newSet := newSet + {id};
      }
      selectedIds := newSet;
    }

    /** selectAll (useSelection.ts:53-55) */
    method SelectAll(ids: seq<string>)
      modifies this`selectedIds
      ensures selectedIds == IdSet(ids)
    {
      selectedIds := IdSet(ids);
    }

    /** clearSelection (useSelection.ts:57-59) */
    method ClearSelection()
      modifies this`selectedIds
      ensures selectedIds == {}
    {
      selectedIds := {};
    }
  }
}
