/**
 * useHistory (src/context/hooks/useHistory.ts): the undo stack `history`
 * (latest action last) and the redo stack `future` (next action first), and
 * the actions they hold (HistoryAction of src/types.ts with its payloads).
 */
module History {
  import opened Wrappers
  import opened Model

  /** One `{ id, data }` entry of a batch update's undo payload. */
  datatype UndoItem = UndoItem(id: string, data: Patch)

  /** One `{ id, changes }` entry of a batch update's payload. */
  datatype ChangeItem = ChangeItem(id: string, changes: Patch)

  /** A deleted record as the undo payload keeps it, with the backup deleteFileFromDisk made. */
  datatype DeletedImage = DeletedImage(record: ImageRecord, backupPath: Option<string>, backupBase: Option<string>)

  datatype Action =
    | UpdateAction(timestamp: int, id: string, updates: Patch, undo: Patch)
    | DeleteAction(timestamp: int, id: string, deleted: DeletedImage)
    | AddAction(timestamp: int)
    | BatchUpdate(timestamp: int, changes: seq<ChangeItem>, undoItems: seq<UndoItem>)
    | BatchDelete(timestamp: int, ids: seq<string>, deletedItems: seq<DeletedImage>)

  class Stacks {
    var history: seq<Action>
    var future: seq<Action>

    constructor ()
      ensures history == [] && future == []
    {
      history := [];
      future := [];
    }

    /** pushHistory (useHistory.ts:25-28): the action goes on top of history and future is emptied. */
    method PushHistory(action: Action)
      modifies this
      ensures history == old(history) + [action]
      ensures history[..|old(history)|] == old(history) && history[|history| - 1] == action
      ensures future == []
    {
      history := history + [action];
      future := [];
    }

    /** canUndo (useHistory.ts:36) */
    function CanUndo(): (b: bool)
      reads this`history
      ensures b <==> history != []
    {
      |history| > 0
    }

    /** canRedo (useHistory.ts:37) */
    function CanRedo(): (b: bool)
      reads this`future
      ensures b <==> future != []
    {
      |future| > 0
    }
  }
}
