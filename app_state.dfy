/**
 * The React state that LibraryProvider (src/context.tsx) keeps beside the
 * store: the image list as last loaded, the source list, and the active
 * source ('all' or a source id). The hooks that receive `setSources` or
 * `setActiveSourceId` change these fields.
 */
module AppState {
  import opened Model
  import Toaster

  const ALL: string := "all"

  /** The arguments of one `addToast(type, message)` call. */
  datatype Notice = Notice(kind: Toaster.ToastType, message: string)

  class Ui {
    var images: seq<ImageRecord>
    var sources: seq<LibrarySource>
    var activeSourceId: string

    constructor ()
      ensures images == [] && sources == [] && activeSourceId == ALL
    {
      images := [];
      sources := [];
      activeSourceId := ALL;
    }
  }
}
