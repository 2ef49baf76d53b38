/**
 What the list statements make, undo and leave alone, and where items appear in their
 list (lists/service.go, adapters/db/lists.go, adapters/db/items.go).
 */
module ListLife {

  import opened Results
  import opened ListRules
  import opened Text
  import opened Store
  import opened Ordering

  // ---------------------------------------------------------------- lists

  /** A list is created under its trimmed name, or not at all, and deleting it again undoes that. */
  lemma CreatedListIsThere(t: Tables, id: Store.Id, name: string, actor: User, now: Time)
    ensures Perform(t, CreateList(id, name, actor, now)).Ok? <==> 0 < |TrimSpace(name)| <= MAX_NAME_LENGTH && id !in t.lists
    ensures var t' := After(t, CreateList(id, name, actor, now));
            Perform(t, CreateList(id, name, actor, now)).Ok? ==>
              && id in t'.lists && t'.lists - {id} == t.lists && t'.items == t.items
              && t'.members == t.members && t'.users == t.users
              && t'.lists[id].name == TrimSpace(name) && t'.lists[id].createdBy == Some(actor)
              && t'.lists[id].createdAt == now && t'.lists[id].updatedAt == now
              && ((forall i :: i in t.items ==> t.items[i].listId != id) ==> After(t', DeleteList(id)) == t)
  {
    var t' := After(t, CreateList(id, name, actor, now));
    if Perform(t, CreateList(id, name, actor, now)).Ok? {
      assert t'.lists - {id} == t.lists;
      if forall i :: i in t.items ==> t.items[i].listId != id {
        assert After(t', DeleteList(id)).items == t.items;
      }
    }
  }

  /** Renaming changes the name and the update time, and the last name counts. */
  lemma RenamedListIsThere(t: Tables, id: Store.Id, name: string, now: Time)
    ensures Perform(t, RenameList(id, name, now)).Ok? <==> 0 < |TrimSpace(name)| <= MAX_NAME_LENGTH && id in t.lists
    ensures var t' := After(t, RenameList(id, name, now));
            Perform(t, RenameList(id, name, now)).Ok? ==>
              && t'.lists.Keys == t.lists.Keys && t'.items == t.items && t'.members == t.members && t'.users == t.users
              && t'.lists[id].name == TrimSpace(name) && t'.lists[id].updatedAt == now
              && t'.lists[id].createdBy == t.lists[id].createdBy && t'.lists[id].createdAt == t.lists[id].createdAt
              && forall other :: other in t.lists && other != id ==> t'.lists[other] == t.lists[other]
  {
  }

  /**
   Deleting a list takes the list and its own items, live or not, and nothing else; what
   the other lists show stays.
   */
  lemma DeletedListIsGone(t: Tables, id: Store.Id)
    ensures Perform(t, DeleteList(id)).Ok? <==> id in t.lists
    ensures var t' := After(t, DeleteList(id));
            && (forall i :: i in t'.items <==> i in t.items && (id !in t.lists || t.items[i].listId != id))
            && (forall i :: i in t'.items ==> t'.items[i] == t.items[i])
            && t'.lists == t.lists - {id} && t'.members == t.members && t'.users == t.users
            && forall list :: list != id ==> DisplayOrder(t'.items, list) == DisplayOrder(t.items, list)
  {
    var t' := After(t, DeleteList(id));
    if id !in t.lists {
      assert t.lists - {id} == t.lists;
    }
    forall list | list != id ensures DisplayOrder(t'.items, list) == DisplayOrder(t.items, list) {
      SameOrder(t.items, t'.items, list);
    }
  }

  // ---------------------------------------------------------------- display order

  /** The order of a list depends on which of its items are live and when they were created. */
  lemma SameOrder(items: map<Store.Id, ItemRow>, items': map<Store.Id, ItemRow>, list: Store.Id)
    requires LiveIds(items', list) == LiveIds(items, list)
    requires forall id :: id in LiveIds(items, list) ==> items'[id].createdAt == items[id].createdAt
    ensures DisplayOrder(items', list) == DisplayOrder(items, list)
  {
    var shown := DisplayOrder(items, list);
    forall i, j | 0 <= i < j < |shown| ensures Before(CreatedAt(items'), shown[i], shown[j]) {
      assert shown[i] in Elements(shown) && shown[j] in Elements(shown);
      assert Before(CreatedAt(items), shown[i], shown[j]);
    }
    OrderIsUnique(CreatedAt(items'), DisplayOrder(items', list), shown);
  }

  /** A new version of a row, with the same list, creation time and mark, leaves every order alone. */
  lemma RewrittenStays(items: map<Store.Id, ItemRow>, id: Store.Id, row: ItemRow)
    requires id in items && row.listId == items[id].listId && row.createdAt == items[id].createdAt
    requires row.deletedAt.None? == items[id].deletedAt.None?
    ensures forall list :: DisplayOrder(items[id := row], list) == DisplayOrder(items, list)
  {
    forall list ensures DisplayOrder(items[id := row], list) == DisplayOrder(items, list) {
      SameOrder(items, items[id := row], list);
    }
  }

  lemma AppendedIsOrdered(items: map<Store.Id, ItemRow>, items': map<Store.Id, ItemRow>, shown: seq<Store.Id>, id: Store.Id)
    requires id in items' && Ordered(CreatedAt(items), shown)
    requires forall i :: 0 <= i < |shown| ==>
               && shown[i] in items && shown[i] in items' && items'[shown[i]] == items[shown[i]]
               && Before(CreatedAt(items'), shown[i], id)
    ensures Ordered(CreatedAt(items'), shown + [id])
  {
    var longer := shown + [id];
    forall i, j | 0 <= i < j < |longer| ensures Before(CreatedAt(items'), longer[i], longer[j]) {
      if j < |shown| {
        assert Before(CreatedAt(items), shown[i], shown[j]);
      }
    }
  }

  /** No live item of the list was created after the given instant, or at it under a later id. */
  ghost predicate NoneLater(items: map<Store.Id, ItemRow>, list: Store.Id, id: Store.Id, now: Time) {
    forall other :: other in LiveIds(items, list) ==>
      items[other].createdAt < now || (items[other].createdAt == now && other < id)
  }

  lemma LastIsShownLast(items: map<Store.Id, ItemRow>, id: Store.Id, row: ItemRow)
    requires id !in items && row.deletedAt.None? && NoneLater(items, row.listId, id, row.createdAt)
    ensures DisplayOrder(items[id := row], row.listId) == DisplayOrder(items, row.listId) + [id]
  {
    var items', was := items[id := row], DisplayOrder(items, row.listId);
    forall i | 0 <= i < |was| ensures Before(CreatedAt(items'), was[i], id) {
      assert was[i] in Elements(was);
    }
    AppendedIsOrdered(items, items', was, id);
    assert Elements(was + [id]) == LiveIds(items', row.listId) by {
      assert Elements(was + [id]) == Elements(was) + {id};
    }
    OrderIsUnique(CreatedAt(items'), DisplayOrder(items', row.listId), was + [id]);
  }

  lemma ShownLastIsLast(items: map<Store.Id, ItemRow>, id: Store.Id, row: ItemRow)
    requires id !in items && row.deletedAt.None?
    requires DisplayOrder(items[id := row], row.listId) == DisplayOrder(items, row.listId) + [id]
    ensures NoneLater(items, row.listId, id, row.createdAt)
  {
    var items', was := items[id := row], DisplayOrder(items, row.listId);
    var longer := was + [id];
    forall other | other in LiveIds(items, row.listId)
      ensures items[other].createdAt < row.createdAt || (items[other].createdAt == row.createdAt && other < id)
    {
      assert other in Elements(was);
      var i :| 0 <= i < |was| && was[i] == other;
      assert longer[i] == other && longer[|was|] == id;
      assert Before(CreatedAt(items'), longer[i], longer[|was|]);
    }
  }

  lemma AddedElsewhere(items: map<Store.Id, ItemRow>, id: Store.Id, row: ItemRow)
    requires id !in items
    ensures forall list :: list != row.listId ==> DisplayOrder(items[id := row], list) == DisplayOrder(items, list)
  {
    forall list | list != row.listId ensures DisplayOrder(items[id := row], list) == DisplayOrder(items, list) {
      SameOrder(items, items[id := row], list);
    }
  }

  /**
   An added item is the last one shown exactly when none of the list's was created later.
   The other lists show what they did.
   */
  lemma AddedIsShownLast(t: Tables, id: Store.Id, list: Store.Id, input: ItemInput, actor: User, now: Time)
    requires ServiceAddItem(t, id, list, input, actor, now).Ok?
    ensures var t' := ServiceAddItem(t, id, list, input, actor, now).value;
            && (DisplayOrder(t'.items, list) == DisplayOrder(t.items, list) + [id] <==> NoneLater(t.items, list, id, now))
            && forall other :: other != list ==> DisplayOrder(t'.items, other) == DisplayOrder(t.items, other)
  {
    var t' := ServiceAddItem(t, id, list, input, actor, now).value;
    var row := t'.items[id];
    assert t'.items == t.items[id := row] && row.listId == list && row.createdAt == now && row.deletedAt.None?;
    if NoneLater(t.items, list, id, now) {
      LastIsShownLast(t.items, id, row);
    }
    if DisplayOrder(t'.items, list) == DisplayOrder(t.items, list) + [id] {
      ShownLastIsLast(t.items, id, row);
    }
    AddedElsewhere(t.items, id, row);
  }

  /** Editing and checking an item moves nothing, and restoring a deleted one puts it back in its place. */
  lemma PlacesAreKept(t: Tables, id: Store.Id, list: Store.Id, u: ItemUpdate, checked: bool, actor: User, now: Time, later: Time)
    requires Live(t, list, id)
    ensures var edited := UpdateItemRow(t, list, id, u, now);
            edited.Ok? && forall other :: DisplayOrder(edited.value.items, other) == DisplayOrder(t.items, other)
    ensures var toggled := ServiceSetChecked(t, id, list, checked, actor, now);
            toggled.Ok? && forall other :: DisplayOrder(toggled.value.items, other) == DisplayOrder(t.items, other)
    ensures var restored := RestoreItemRow(Left(t, DeleteItemRow(t, list, id, now)), list, id, later);
            restored.Ok? && forall other :: DisplayOrder(restored.value.items, other) == DisplayOrder(t.items, other)
  {
    var row := t.items[id];
    RewrittenStays(t.items, id, Patched(row, u, now));
    var toggled := ServiceSetChecked(t, id, list, checked, actor, now).value.items;
    if row.checked != checked {
      assert toggled == t.items[id := toggled[id]];
      RewrittenStays(t.items, id, toggled[id]);
    }
    var restored := RestoreItemRow(Left(t, DeleteItemRow(t, list, id, now)), list, id, later).value.items;
    assert restored == t.items[id := row.(updatedAt := later)];
    RewrittenStays(t.items, id, row.(updatedAt := later));
  }
}
