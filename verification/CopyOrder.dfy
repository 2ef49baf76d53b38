/** Copying a list keeps the order its items are displayed in (adapters/db/lists.go). */
module CopyOrder {

  import opened Results
  import opened ListRules
  import opened Store
  import opened Ordering

  lemma {:induction false} CopiedAt(
    items: map<Store.Id, ItemRow>, source: seq<Store.Id>, ids: seq<Store.Id>, list: Store.Id, actor: User, now: Time, i: nat)
    requires |ids| == |source| && Distinct(ids) && i < |ids|
    requires forall id :: id in source ==> id in items
    ensures InsertCopies(items, source, ids, list, actor, now)[ids[i]] == CopyOf(items[source[i]], list, actor, now, i + 1)
    decreases source
  {
    var last := |source| - 1;
    if i == last {
    } else {
      assert ids[..last][i] == ids[i] && source[..last][i] == source[i] && ids[i] != ids[last];
      CopiedAt(items, source[..last], ids[..last], list, actor, now, i);
    }
  }

  /** The copied rows' timestamps alone put them in the order they were numbered. */
  lemma CopiesAreOrdered(
    items: map<Store.Id, ItemRow>, source: seq<Store.Id>, ids: seq<Store.Id>, list: Store.Id, actor: User, now: Time)
    requires |ids| == |source| && Distinct(ids)
    requires forall id :: id in source ==> id in items
    ensures Ordered(CreatedAt(InsertCopies(items, source, ids, list, actor, now)), ids)
  {
    var rank := CreatedAt(InsertCopies(items, source, ids, list, actor, now));
    forall i, j | 0 <= i < j < |ids| ensures Before(rank, ids[i], ids[j]) {
      CopiedAt(items, source, ids, list, actor, now, i);
      CopiedAt(items, source, ids, list, actor, now, j);
    }
  }

  lemma CopiesAreLive(
    items: map<Store.Id, ItemRow>, source: seq<Store.Id>, ids: seq<Store.Id>, list: Store.Id, actor: User, now: Time)
    requires |ids| == |source| && Unused(items, ids)
    requires forall id :: id in source ==> id in items
    requires forall id :: id in items ==> items[id].listId != list
    ensures LiveIds(InsertCopies(items, source, ids, list, actor, now), list) == Elements(ids)
  {
    var r := InsertCopies(items, source, ids, list, actor, now);
    forall id ensures id in LiveIds(r, list) <==> id in ids {
      if id in ids {
        var i :| 0 <= i < |ids| && ids[i] == id;
        CopiedAt(items, source, ids, list, actor, now, i);
      }
    }
  }

  /** A fresh copy: the same thing to buy, not bought yet, added by the copier. */
  predicate IsFreshCopy(copy: ItemRow, row: ItemRow, actor: User) {
    && copy.name == row.name && copy.quantity == row.quantity && copy.unit == row.unit && copy.note == row.note
    && !copy.checked && copy.checkedAt.None? && copy.boughtBy.None? && copy.addedBy == Some(actor)
    && copy.deletedAt.None?
  }

  /** Everything that was in the first table is in the second, unchanged. */
  ghost predicate Keeps(items: map<Store.Id, ItemRow>, items': map<Store.Id, ItemRow>) {
    forall id :: id in items ==> id in items' && items'[id] == items[id]
  }

  lemma CopiedRows(t: Tables, source: Store.Id, newId: Store.Id, name: string, ids: seq<Store.Id>, actor: User, now: Time)
    requires CopyListRows(t, source, newId, name, ids, actor, now).Ok?
    requires forall id :: id in t.items ==> t.items[id].listId in t.lists
    ensures var t' := CopyListRows(t, source, newId, name, ids, actor, now).value;
            var shown := DisplayOrder(t.items, source);
            && DisplayOrder(t'.items, newId) == ids && |ids| == |shown|
            && (forall i :: 0 <= i < |shown| ==>
                  ids[i] in t'.items && IsFreshCopy(t'.items[ids[i]], t.items[shown[i]], actor)
                  && t'.items[ids[i]].createdAt == now + i + 1 && t'.items[ids[i]].updatedAt == now)
            && Keeps(t.items, t'.items)
            && (forall id :: id in t'.items ==> id in t.items || id in ids)
  {
    var t' := CopyListRows(t, source, newId, name, ids, actor, now).value;
    var shown := DisplayOrder(t.items, source);
    CopiesAreOrdered(t.items, shown, ids, newId, actor, now);
    CopiesAreLive(t.items, shown, ids, newId, actor, now);
    OrderIsUnique(CreatedAt(t'.items), DisplayOrder(t'.items, newId), ids);
    forall i | 0 <= i < |shown|
      ensures ids[i] in t'.items && IsFreshCopy(t'.items[ids[i]], t.items[shown[i]], actor)
      ensures t'.items[ids[i]].createdAt == now + i + 1 && t'.items[ids[i]].updatedAt == now
    {
      CopiedAt(t.items, shown, ids, newId, actor, now, i);
    }
  }

  /** Adding rows to one list leaves what the others show alone. */
  lemma OtherListsUnmoved(
    items: map<Store.Id, ItemRow>, items': map<Store.Id, ItemRow>, list: Store.Id, other: Store.Id)
    requires list != other && Keeps(items, items')
    requires forall id :: id in items' && id !in items ==> items'[id].listId == list
    ensures DisplayOrder(items', other) == DisplayOrder(items, other)
  {
    assert LiveIds(items', other) == LiveIds(items, other);
    var shown := DisplayOrder(items, other);
    OrderIsUnique(CreatedAt(items'), DisplayOrder(items', other), shown);
  }

  /**
   Whatever ids the copies get, the copied list shows the source's live items in
   the source's order, field for field; all are unchecked, bought by nobody and
   added by the copier. Every list and row there was before is untouched, and shows
   the same items in the same order.
   */
  lemma CopyPreservesDisplayOrder(
    t: Tables, source: Store.Id, newId: Store.Id, name: string, actor: User, ids: seq<Store.Id>, now: Time)
    requires ServiceCopyList(t, source, newId, name, actor, ids, now).Ok?
    requires forall id :: id in t.items ==> t.items[id].listId in t.lists
    ensures var t' := ServiceCopyList(t, source, newId, name, actor, ids, now).value;
            var shown, copied := DisplayOrder(t.items, source), DisplayOrder(t'.items, newId);
            && |copied| == |shown|
            && (forall i :: 0 <= i < |shown| ==>
                  && IsFreshCopy(t'.items[copied[i]], t.items[shown[i]], actor)
                  && t'.items[copied[i]].createdAt == now + i + 1 && t'.items[copied[i]].updatedAt == now)
            && Keeps(t.items, t'.items)
            && (forall list :: list != newId ==> DisplayOrder(t'.items, list) == DisplayOrder(t.items, list))
            && newId !in t.lists && t'.lists == t.lists[newId := ListRow(CopyName(t, source, name), Some(actor), now, now)]
            && t'.members == t.members && t'.users == t.users
  {
    var clean := CopyName(t, source, name);
    assert ServiceCopyList(t, source, newId, name, actor, ids, now) == CopyListRows(t, source, newId, clean, ids, actor, now);
    CopiedRows(t, source, newId, clean, ids, actor, now);
    CopyTouchesNothingElse(t, source, newId, clean, ids, actor, now);
  }

  function CopyName(t: Tables, source: Store.Id, name: string): string
    requires source in t.lists
  {
    if name == "" then CopyListName(t.lists[source].name) else Text.TrimSpace(name)
  }

  lemma CopyTouchesNothingElse(
    t: Tables, source: Store.Id, newId: Store.Id, name: string, ids: seq<Store.Id>, actor: User, now: Time)
    requires CopyListRows(t, source, newId, name, ids, actor, now).Ok?
    requires forall id :: id in t.items ==> t.items[id].listId in t.lists
    ensures var t' := CopyListRows(t, source, newId, name, ids, actor, now).value;
            && (forall list :: list != newId ==> DisplayOrder(t'.items, list) == DisplayOrder(t.items, list))
            && newId !in t.lists && t'.lists == t.lists[newId := ListRow(name, Some(actor), now, now)]
            && t'.lists - {newId} == t.lists
            && t'.members == t.members && t'.users == t.users
  {
    var t' := CopyListRows(t, source, newId, name, ids, actor, now).value;
    CopiedRows(t, source, newId, name, ids, actor, now);
    forall list | list != newId ensures DisplayOrder(t'.items, list) == DisplayOrder(t.items, list) {
      forall id | id in t'.items && id !in t.items ensures t'.items[id].listId == newId {
        assert id in Elements(DisplayOrder(t'.items, newId));
      }
      OtherListsUnmoved(t.items, t'.items, newId, list);
    }
    assert t'.lists - {newId} == t.lists;
  }
}
