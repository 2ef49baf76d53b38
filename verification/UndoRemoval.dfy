/**
 Removing a row on the list screen and taking that back (frontend/src/ListDetail.tsx,
 frontend/src/queries.ts).
 */
module UndoRemoval {

  import opened Results
  import opened Fold
  import opened ClientCache
  import CancelledCreate

  function RemovedAndUndone(c: Client, id: ItemId, tempId: ItemId, now: Time): Client {
    Do(Do(c, RemoveOp(id)), UndoOp(id, tempId, now))
  }

  lemma BumpsCancel(overview: Option<seq<Summary>>, list: ListId, open: int, checked: int)
    ensures Bump(Bump(overview, list, -open, -checked), list, open, checked) == overview
  {
    if overview.Some? {
      assert Bump(Bump(overview, list, -open, -checked), list, open, checked).value == overview.value;
    }
  }

  /** Setting the counts the overview carries already changes nothing. */
  lemma PatchIsIdle(c: Client)
    requires OverviewAgrees(c)
    ensures Patch(c.overview, c.list, c.detail.open, c.detail.checked) == c.overview
  {
    if c.overview.Some? {
      assert Patch(c.overview, c.list, c.detail.open, c.detail.checked).value == c.overview.value;
    }
  }

  /**
   Undoing the removal of a synced row gives back the row itself, now the last one, and
   the counts, the overview and the undo offers as they were. The server is told of both.
   */
  lemma UndoRestoresSyncedRow(c: Client, id: ItemId, tempId: ItemId, now: Time)
    requires Consistent(c) && id.Real? && RowOf(c.detail.items, id).Some? && Unseen(Do(c, RemoveOp(id)), tempId)
    ensures var row, undone := RowOf(c.detail.items, id).value, RemovedAndUndone(c, id, tempId, now);
            && undone.detail == Detail(Without(c.detail.items, id) + [row], c.detail.open, c.detail.checked)
            && undone.overview == c.overview && undone.undo == c.undo
            && undone.outbox == c.outbox + [DeleteMutation(c.list, id), RestoreMutation(c.list, row)]
  {
    RowOfFinds(c.detail.items, id);
    var row := RowOf(c.detail.items, id).value;
    BumpsCancel(c.overview, c.list, if row.checked then 0 else 1, if row.checked then 1 else 0);
    assert c.undo[id := row] - {id} == c.undo;
    var removed := Do(c, RemoveOp(id));
    assert removed == RemoveItem(c, row);
    assert RemovedAndUndone(c, id, tempId, now) == UndoRemoval(removed, row, tempId, now);
  }

  /** What the user entered. */
  predicate SameEntry(a: Item, b: Item) {
    a.name == b.name && a.quantity == b.quantity && a.unit == b.unit && a.note == b.note && a.checked == b.checked
  }

  /**
   Undoing the removal of an unsynced row adds it afresh, with the counts, the overview
   and the undo offers as they were, and with everything the user had entered exactly
   when the unit was the default one.
   */
  lemma UndoForgetsTheUnit(c: Client, id: ItemId, tempId: ItemId, now: Time)
    requires Consistent(c) && id.Temp? && RowOf(c.detail.items, id).Some? && Unseen(Do(c, RemoveOp(id)), tempId)
    ensures var row, undone := RowOf(c.detail.items, id).value, RemovedAndUndone(c, id, tempId, now);
            var again := OptimisticRow(tempId, ReaddPayload(row), c.me, now);
            && undone.detail == Detail(Without(c.detail.items, id) + [again], c.detail.open, c.detail.checked)
            && undone.overview == c.overview && undone.undo == c.undo
            && (SameEntry(again, row) <==> row.unit == "amount")
            && again.name == row.name && again.quantity == row.quantity && again.note == row.note && again.checked == row.checked
  {
    RowOfFinds(c.detail.items, id);
    var row := RowOf(c.detail.items, id).value;
    var removed := Do(c, RemoveOp(id));
    assert removed == RemoveItem(c, row);
    assert RemovedAndUndone(c, id, tempId, now) == UndoRemoval(removed, row, tempId, now);
    CancelledCreate.PatchTwice(c.overview, c.list, if row.checked then 0 else -1, if row.checked then -1 else 0,
                               c.detail.open, c.detail.checked);
    PatchIsIdle(c);
    assert c.undo[id := row] - {id} == c.undo;
  }
}
