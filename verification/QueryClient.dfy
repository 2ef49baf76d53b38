/**
 The hooks and cache helpers of frontend/src/queries.ts in their own form: methods
 that overwrite the query cache and the queued mutations. Each is proved to be the
 corresponding function of ClientCache, on whose sessions the invariants are proved.
 */
module QueryClients {

  import opened Results
  import opened Fold
  import opened ClientCache

  // ---------------------------------------------------------------- the outbox by position

  /** The position of the first queued create for the id. */
  predicate IsFirstQueued(outbox: seq<Mutation>, id: ItemId, online: bool, at: nat) {
    && at < |outbox| && IsQueuedCreate(outbox[at], id, online)
    && forall i :: 0 <= i < at ==> !IsQueuedCreate(outbox[i], id, online)
  }

  lemma {:induction false} FoldAt(outbox: seq<Mutation>, id: ItemId, online: bool, change: Change, at: nat)
    requires IsFirstQueued(outbox, id, online, at)
    ensures FoldInto(outbox, id, online, change) == outbox[at := outbox[at].(payload := Merge(outbox[at].payload, change))]
    decreases outbox
  {
    if at == 0 {
    } else {
      assert IsFirstQueued(outbox[1..], id, online, at - 1);
      FoldAt(outbox[1..], id, online, change, at - 1);
    }
  }

  lemma {:induction false} CancelAt(outbox: seq<Mutation>, id: ItemId, online: bool, at: nat)
    requires IsFirstQueued(outbox, id, online, at)
    ensures Cancel(outbox, id, online) == outbox[..at] + outbox[at + 1..]
    decreases outbox
  {
    if at == 0 {
    } else {
      assert IsFirstQueued(outbox[1..], id, online, at - 1);
      CancelAt(outbox[1..], id, online, at - 1);
    }
  }

  lemma {:induction false} CheckRowsAt(items: seq<Item>, id: ItemId, checked: bool, me: Option<User>, now: Time)
    ensures var rows := CheckRows(items, id, checked, me, now);
            && |rows| == |items|
            && forall k :: 0 <= k < |items| ==>
                 rows[k] == if items[k].id == id then CheckedRow(items[k], checked, me, now) else items[k]
    decreases items
  {
    if items == [] {
    } else {
      CheckRowsAt(items[1..], id, checked, me, now);
    }
  }

  lemma {:induction false} EditRowsAt(items: seq<Item>, id: ItemId, body: EditBody)
    ensures var rows := EditRows(items, id, body);
            && |rows| == |items|
            && forall k :: 0 <= k < |items| ==> rows[k] == if items[k].id == id then EditedRow(items[k], body) else items[k]
    decreases items
  {
    if items == [] {
    } else {
      EditRowsAt(items[1..], id, body);
    }
  }

  class QueryClient {
    const list: ListId
    const me: Option<User>
    var online: bool
    var detail: Detail
    var overview: Option<seq<Summary>>
    var outbox: seq<Mutation>
    var undo: map<ItemId, Item>

    ghost function Snapshot(): (c: Client)
      reads this
    {
      Client(list, me, online, detail, overview, outbox, undo)
    }

    constructor (list: ListId, me: Option<User>, online: bool, detail: Detail, overview: Option<seq<Summary>>)
      ensures Snapshot() == Client(list, me, online, detail, overview, [], map[])
    {
      this.list, this.me, this.online := list, me, online;
      this.detail, this.overview, outbox, undo := detail, overview, [], map[];
    }

    method PatchListSummary(open: int, checked: int)
      modifies this`overview
      ensures overview == Patch(old(overview), list, open, checked)
    {
      if overview.Some? {
        var was := overview.value;
        var lists: seq<Summary> := [];
        for i := 0 to |was|
          invariant lists == Patch(Some(was), list, open, checked).value[..i]
        {
          lists := lists + [if was[i].list == list then Summary(list, open, checked) else was[i]];
        }
        assert lists == Patch(Some(was), list, open, checked).value;
        overview := Some(lists);
      }
    }

    /** Adds to the counts of the list's overview row. */
    method BumpListSummary(open: int, checked: int)
      modifies this`overview
      ensures overview == Bump(old(overview), list, open, checked)
    {
      if overview.Some? {
        var was := overview.value;
        var lists: seq<Summary> := [];
        for i := 0 to |was|
          invariant lists == Bump(Some(was), list, open, checked).value[..i]
        {
          var l := was[i];
          lists := lists + [if l.list == list then Summary(list, l.open + open, l.checked + checked) else l];
        }
        assert lists == Bump(Some(was), list, open, checked).value;
        overview := Some(lists);
      }
    }

    method FindPausedCreate(id: ItemId) returns (found: Option<nat>)
      ensures found.Some? <==> Queued(outbox, id, online)
      ensures found.Some? ==> IsFirstQueued(outbox, id, online, found.value)
    {
      for i := 0 to |outbox|
        invariant forall j :: 0 <= j < i ==> !IsQueuedCreate(outbox[j], id, online)
      {
        if IsQueuedCreate(outbox[i], id, online) {
          return Some(i);
        }
      }
      return None;
    }

    method UpdatePausedCreatePayload(id: ItemId, change: Change) returns (folded: bool)
      modifies this`outbox
      ensures folded == Queued(old(outbox), id, online)
      ensures outbox == if folded then FoldInto(old(outbox), id, online, change) else old(outbox)
    {
      var paused := FindPausedCreate(id);
      if paused.None? {
        return false;
      }
      FoldAt(outbox, id, online, change, paused.value);
      var vars := outbox[paused.value];
      outbox := outbox[paused.value := vars.(payload := Merge(vars.payload, change))];
      return true;
    }

    method CheckRow(id: ItemId, checked: bool, now: Time)
      modifies this`detail
      ensures detail == old(detail).(items := CheckRows(old(detail.items), id, checked, me, now))
    {
      var was := detail.items;
      CheckRowsAt(was, id, checked, me, now);
      var items: seq<Item> := [];
      for i := 0 to |was|
        invariant items == CheckRows(was, id, checked, me, now)[..i]
      {
        items := items + [if was[i].id == id then CheckedRow(was[i], checked, me, now) else was[i]];
      }
      assert items == CheckRows(was, id, checked, me, now);
      detail := detail.(items := items);
    }

    method ToggleChecked(id: ItemId, checked: bool, now: Time)
      modifies this`detail, this`overview
      ensures Snapshot() == ToggleLocally(old(Snapshot()), id, checked, now)
    {
      CheckRow(id, checked, now);
      detail := detail.(open := detail.open + if checked then -1 else 1,
                        checked := detail.checked + if checked then 1 else -1);
      PatchListSummary(detail.open, detail.checked);
    }

    method PatchRow(id: ItemId, body: EditBody)
      modifies this`detail
      ensures detail == old(detail).(items := EditRows(old(detail.items), id, body))
    {
      var was := detail.items;
      EditRowsAt(was, id, body);
      var items: seq<Item> := [];
      for i := 0 to |was|
        invariant items == EditRows(was, id, body)[..i]
      {
        items := items + [if was[i].id == id then EditedRow(was[i], body) else was[i]];
      }
      assert items == EditRows(was, id, body);
      detail := detail.(items := items);
    }

    /** useAddItem and its onMutate */
    method AddItem(tempId: ItemId, payload: AddPayload, now: Time)
      modifies this`detail, this`overview, this`outbox
      ensures Snapshot() == ClientCache.AddItem(old(Snapshot()), tempId, payload, now)
    {
      var row := OptimisticRow(tempId, payload, me, now);
      detail := Detail(detail.items + [row], detail.open + if row.checked then 0 else 1,
                       detail.checked + if row.checked then 1 else 0);
      PatchListSummary(detail.open, detail.checked);
      outbox := outbox + [AddMutation(list, tempId, payload, false)];
    }

    /** useUpdateItem */
    method UpdateItem(id: ItemId, body: EditBody)
      modifies this`detail, this`outbox
      ensures Snapshot() == ClientCache.EditItem(old(Snapshot()), id, body)
    {
      if id.Temp? {
        var folded := UpdatePausedCreatePayload(id, Edit(body));
        if folded {
          PatchRow(id, body);
          return;
        }
      }
      PatchRow(id, body);
      outbox := outbox + [EditMutation(list, id, body)];
    }

    /** useCheckItem and useUncheckItem */
    method SetChecked(id: ItemId, checked: bool, now: Time)
      modifies this`detail, this`overview, this`outbox
      ensures Snapshot() == ClientCache.SetChecked(old(Snapshot()), id, checked, now)
    {
      if id.Temp? {
        var folded := UpdatePausedCreatePayload(id, if checked then Check else Uncheck);
        if folded {
          ToggleChecked(id, checked, now);
          return;
        }
      }
      ToggleChecked(id, checked, now);
      outbox := outbox + [CheckMutation(list, id, checked)];
    }

    method RemoveItemLocally(row: Item)
      modifies this`detail, this`overview
      ensures Snapshot() == RemoveLocally(old(Snapshot()), row)
    {
      var was := detail.items;
      var items: seq<Item> := [];
      for i := 0 to |was|
        invariant items + Without(was[i..], row.id) == Without(was, row.id)
      {
        assert was[i..][1..] == was[i + 1..];
        if was[i].id != row.id {
          items := items + [was[i]];
        }
      }
      assert items == Without(was, row.id);
      var open, checked := if row.checked then 0 else -1, if row.checked then -1 else 0;
      detail := Detail(items, detail.open + open, detail.checked + checked);
      BumpListSummary(open, checked);
    }

    method RestoreItemLocally(row: Item)
      modifies this`detail, this`overview
      ensures Snapshot() == RestoreLocally(old(Snapshot()), row)
    {
      var open, checked := if row.checked then 0 else 1, if row.checked then 1 else 0;
      detail := Detail(detail.items + [row], detail.open + open, detail.checked + checked);
      BumpListSummary(open, checked);
    }

    /** useDeleteItemMutation */
    method DeleteItem(id: ItemId)
      modifies this`outbox
      ensures Snapshot() == DeleteQueued(old(Snapshot()), id)
    {
      if id.Temp? {
        var paused := FindPausedCreate(id);
        if paused.Some? {
          CancelAt(outbox, id, online, paused.value);
          outbox := outbox[..paused.value] + outbox[paused.value + 1..];
          return;
        }
      }
      outbox := outbox + [DeleteMutation(list, id)];
    }

    /** The list screen's handleToggle; `row` is the row as it was last rendered. */
    method HandleToggle(row: Item, now: Time)
      modifies this`detail, this`overview, this`outbox
      ensures Snapshot() == ClientCache.SetChecked(old(Snapshot()), row.id, !row.checked, now)
      ensures RowOf(old(detail.items), row.id) == Some(row) ==> Snapshot() == Do(old(Snapshot()), ToggleOp(row.id, now))
    {
      SetChecked(row.id, !row.checked, now);
    }

    /** The list screen's handleRemoveItem; `row` is the row as it was last rendered. */
    method HandleRemoveItem(row: Item)
      modifies this`detail, this`overview, this`outbox, this`undo
      ensures Snapshot() == RemoveItem(old(Snapshot()), row)
      ensures RowOf(old(detail.items), row.id) == Some(row) ==> Snapshot() == Do(old(Snapshot()), RemoveOp(row.id))
    {
      RemoveItemLocally(row);
      DeleteItem(row.id);
      undo := undo[row.id := row];
    }

    /** The undo action that handleRemoveItem schedules */
    method HandleUndo(row: Item, tempId: ItemId, now: Time)
      requires row.id in undo && undo[row.id] == row && Unseen(Snapshot(), tempId)
      modifies this`detail, this`overview, this`outbox, this`undo
      ensures Snapshot() == Do(old(Snapshot()), UndoOp(row.id, tempId, now))
    {
      undo := undo - {row.id};
      if row.id.Temp? {
        AddItem(tempId, ReaddPayload(row), now);
      } else {
        RestoreItemLocally(row);
        outbox := outbox + [RestoreMutation(list, row)];
      }
    }
  }
}
