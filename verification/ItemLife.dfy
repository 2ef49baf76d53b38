/**
 What the item statements undo, compose to and leave alone (adapters/db/items.go,
 lists/service.go).
 */
module ItemLife {

  import opened Results
  import opened ListRules
  import opened Text
  import opened Store

  /** Only this item's row differs, and it is still on the same list. */
  ghost predicate OnlyTouches(t: Tables, t': Tables, id: Id) {
    && id in t'.items
    && t' == t.(items := t.items[id := t'.items[id]])
    && (id in t.items ==> t'.items[id].listId == t.items[id].listId && t'.items[id].createdAt == t.items[id].createdAt)
  }

  /** An item that was added is read back with what was entered, cleaned, and credited to its adder. */
  lemma AddedIsRead(t: Tables, id: Id, list: Id, input: ItemInput, actor: User, now: Time)
    requires ServiceAddItem(t, id, list, input, actor, now).Ok?
    ensures var t' := ServiceAddItem(t, id, list, input, actor, now).value;
            && OnlyTouches(t, t', id) && id !in t.items
            && ReadItem(t', list, id).Ok?
            && var row := ReadItem(t', list, id).value;
            && row.name == TrimSpace(input.name) && row.quantity == (if input.quantity == 0 then 1 else input.quantity)
            && row.unit == (if input.unit == "" then DEFAULT_UNIT else input.unit) && row.note == NormalizeNote(input.note)
            && row.addedBy == Some(actor) && row.checked == input.checked
            && row.boughtBy == (if input.checked then Some(actor) else None)
            && row.checkedAt == (if input.checked then Some(now) else None) && row.createdAt == now && row.updatedAt == now
    ensures LiveIds(ServiceAddItem(t, id, list, input, actor, now).value.items, list) == LiveIds(t.items, list) + {id}
  {
  }

  /** What an add is accepted for, and the first thing that is wrong with one that is not. */
  lemma AcceptedAdds(t: Tables, id: Id, list: Id, input: ItemInput, actor: User, now: Time)
    ensures var r := ServiceAddItem(t, id, list, input, actor, now);
            var nameOk := 0 < |TrimSpace(input.name)| <= MAX_NAME_LENGTH;
            var unitOk := input.unit == "" || input.unit in Units();
            var noteOk := input.note.Some? ==> |TrimSpace(input.note.value)| <= MAX_NOTE_LENGTH;
            && (r.Ok? <==> nameOk && input.quantity >= 0 && unitOk && noteOk && list in t.lists && id !in t.items)
            && (r.Err? && r.error.Invalid? <==> !(nameOk && input.quantity >= 0 && unitOk && noteOk))
            && (r.Err? && r.error.Invalid? ==>
                  r.error.field == if !nameOk then "name" else if input.quantity < 0 then "quantity"
                                   else if !unitOk then "unit" else "note")
            && (r == Err(NotFound) <==> nameOk && input.quantity >= 0 && unitOk && noteOk && list !in t.lists)
  {
  }

  /** An updated item is read back with what was given, cleaned, and with the rest as it was. */
  lemma UpdatedIsRead(t: Tables, id: Id, list: Id, u: ItemUpdate, now: Time)
    requires ServiceUpdateItem(t, id, list, u, now).Ok?
    ensures var t' := ServiceUpdateItem(t, id, list, u, now).value;
            && Live(t, list, id) && OnlyTouches(t, t', id) && ReadItem(t', list, id).Ok?
            && var (row, was) := (ReadItem(t', list, id).value, t.items[id]);
            && row.name == (if u.name.Some? then TrimSpace(u.name.value) else was.name)
            && row.quantity == (if u.quantity.Some? then u.quantity.value else was.quantity)
            && row.unit == (if u.unit.None? then was.unit else if u.unit.value == "" then DEFAULT_UNIT else u.unit.value)
            && row.note == (if u.noteSet then NormalizeNote(u.note) else was.note)
            && row.checked == was.checked && row.checkedAt == was.checkedAt && row.boughtBy == was.boughtBy
            && row.addedBy == was.addedBy && row.updatedAt == now
  {
  }

  /** Deleting hides an item from its list, and restoring it undoes that in full. */
  lemma RestoreUndoesDelete(t: Tables, list: Id, id: Id, now: Time, later: Time)
    requires Live(t, list, id)
    ensures var deleted := DeleteItemRow(t, list, id, now).value;
            var restored := RestoreItemRow(deleted, list, id, later);
            && LiveIds(deleted.items, list) == LiveIds(t.items, list) - {id}
            && ReadItem(deleted, list, id).Err? && DeleteItemRow(deleted, list, id, later).Err?
            && OnlyTouches(t, deleted, id) && deleted.items[id].deletedAt == Some(now) && deleted.items[id].updatedAt == now
            && restored == Ok(t.(items := t.items[id := t.items[id].(updatedAt := later)]))
  {
    var deleted := DeleteItemRow(t, list, id, now).value;
    var restored := RestoreItemRow(deleted, list, id, later).value;
    assert restored.items == t.items[id := t.items[id].(updatedAt := later)];
  }

  /** A restore finds whatever row of the list has the id, deleted or not, and afterwards it is live. */
  lemma RestoredIsLive(t: Tables, list: Id, id: Id, now: Time)
    ensures var r := RestoreItemRow(t, list, id, now);
            && (r.Ok? <==> id in t.items && t.items[id].listId == list) && (r.Err? ==> r.error == NotFound)
            && (r.Ok? ==> Live(r.value, list, id) && r.value == t.(items := r.value.items)
                          && r.value.items == t.items[id := t.items[id].(deletedAt := None, updatedAt := now)])
  {
  }

  /** Checking and unchecking an open item undoes the check, its time and its buyer. */
  lemma UncheckUndoesCheck(t: Tables, list: Id, id: Id, actor: User, other: User, now: Time, later: Time)
    requires Live(t, list, id) && !t.items[id].checked && t.items[id].checkedAt.None? && t.items[id].boughtBy.None?
    ensures var checked := ServiceSetChecked(t, id, list, true, actor, now);
            && checked.Ok? && checked.value.items[id].checkedAt == Some(now) && checked.value.items[id].boughtBy == Some(actor)
            && OnlyTouches(t, checked.value, id) && checked.value.items[id].checked && checked.value.items[id].updatedAt == now
            && ServiceSetChecked(checked.value, id, list, true, other, later) == Ok(checked.value)
            && ServiceSetChecked(checked.value, id, list, false, other, later)
               == Ok(t.(items := t.items[id := t.items[id].(updatedAt := later)]))
  {
    var checked := ServiceSetChecked(t, id, list, true, actor, now).value;
    var cleared := ServiceSetChecked(checked, id, list, false, other, later).value;
    assert cleared.items == t.items[id := t.items[id].(updatedAt := later)];
  }

  /** The second update's fields, and the first one's where it is silent. */
  function Both(u: ItemUpdate, v: ItemUpdate): ItemUpdate {
    ItemUpdate(if v.name.Some? then v.name else u.name, if v.quantity.Some? then v.quantity else u.quantity,
               if v.unit.Some? then v.unit else u.unit, u.noteSet || v.noteSet, if v.noteSet then v.note else u.note)
  }

  /** Two updates in a row are one update with both their fields, and an update touches nothing else. */
  lemma UpdatesCompose(t: Tables, list: Id, id: Id, u: ItemUpdate, v: ItemUpdate, now: Time, later: Time)
    requires Live(t, list, id)
    ensures var first := UpdateItemRow(t, list, id, u, now).value;
            && OnlyTouches(t, first, id) && LiveIds(first.items, list) == LiveIds(t.items, list)
            && UpdateItemRow(first, list, id, v, later) == UpdateItemRow(t, list, id, Both(u, v), later)
  {
    var first := UpdateItemRow(t, list, id, u, now).value;
    var second := UpdateItemRow(first, list, id, v, later).value;
    assert second.items == UpdateItemRow(t, list, id, Both(u, v), later).value.items;
  }

  /** A rejected call leaves no trace, and an update is rejected for what it gives, not for what it omits. */
  lemma AcceptedUpdates(t: Tables, id: Id, list: Id, update: ItemUpdate, now: Time)
    ensures ServiceUpdateItem(t, id, list, update, now).Ok? <==>
            && Live(t, list, id)
            && (update.name.Some? ==> 0 < |TrimSpace(update.name.value)| <= MAX_NAME_LENGTH)
            && (update.quantity.Some? ==> update.quantity.value >= 1)
            && (update.unit.Some? ==> update.unit.value == "" || update.unit.value in Units())
            && (update.noteSet && update.note.Some? ==> |TrimSpace(update.note.value)| <= MAX_NOTE_LENGTH)
    ensures ServiceUpdateItem(t, id, list, update, now).Err? ==>
            After(t, UpdateItem(id, list, update, now)) == t
  {
  }

  /** The first thing that is wrong with an update, checked before the item is looked for. */
  lemma RefusedUpdates(t: Tables, id: Id, list: Id, u: ItemUpdate, now: Time)
    ensures var r := ServiceUpdateItem(t, id, list, u, now);
            var nameOk := u.name.Some? ==> 0 < |TrimSpace(u.name.value)| <= MAX_NAME_LENGTH;
            var quantityOk := u.quantity.Some? ==> u.quantity.value >= 1;
            var unitOk := u.unit.Some? ==> u.unit.value == "" || u.unit.value in Units();
            var noteOk := u.noteSet && u.note.Some? ==> |TrimSpace(u.note.value)| <= MAX_NOTE_LENGTH;
            && (r.Err? && r.error.Invalid? <==> !(nameOk && quantityOk && unitOk && noteOk))
            && (r.Err? && r.error.Invalid? ==>
                  r.error.field == if !nameOk then "name" else if !quantityOk then "quantity" else if !unitOk then "unit" else "note")
            && (r == Err(NotFound) <==> nameOk && quantityOk && unitOk && noteOk && !Live(t, list, id))
  {
  }

  /** An item that is missing, deleted or on another list is not found, and nothing changes. */
  lemma MissingIsNotFound(t: Tables, id: Id, list: Id, actor: User, now: Time)
    requires !Live(t, list, id)
    ensures Perform(t, CheckItem(id, list, actor, now)) == Err(NotFound)
    ensures Perform(t, UncheckItem(id, list, now)) == Err(NotFound)
    ensures Perform(t, DeleteItem(id, list, now)) == Err(NotFound)
    ensures ReadItem(t, list, id) == Err(NotFound)
    ensures After(t, CheckItem(id, list, actor, now)) == t && After(t, UncheckItem(id, list, now)) == t
    ensures After(t, DeleteItem(id, list, now)) == t
  {
  }
}
