/**
 The offline client (frontend/src/queries.ts, frontend/src/ListDetail.tsx): the
 cached list detail, the cached overview, and the outbox of queued mutations, as the
 list screen changes them between two server responses.

 Each hook's cache and outbox write is one atomic step. The detail of one list is
 cached; the overview may or may not be.
 */
module ClientCache {

  import opened Results
  import opened Fold

  type Time = int
  type User = nat
  type ListId = nat

  /** An optimistic id carries a marker that no server id has. */
  datatype ItemId = Temp(n: nat) | Real(n: nat)

  datatype Item = Item(
    id: ItemId,
    name: string,
    quantity: int,
    unit: string,
    note: Option<string>,
    checked: bool,
    checkedAt: Option<Time>,
    addedBy: Option<User>,
    boughtBy: Option<User>)

  datatype Detail = Detail(items: seq<Item>, open: int, checked: int)

  datatype Summary = Summary(list: ListId, open: int, checked: int)

  datatype Mutation =
    | AddMutation(list: ListId, tempId: ItemId, payload: AddPayload, paused: bool)
    | EditMutation(list: ListId, itemId: ItemId, body: EditBody)
    | CheckMutation(list: ListId, itemId: ItemId, checked: bool)
    | DeleteMutation(list: ListId, itemId: ItemId)
    | RestoreMutation(list: ListId, item: Item)

  /** `undo` holds the removed rows whose removal the snackbar can still take back. */
  datatype Client = Client(
    list: ListId,
    me: Option<User>,
    online: bool,
    detail: Detail,
    overview: Option<seq<Summary>>,
    outbox: seq<Mutation>,
    undo: map<ItemId, Item>)

  // ---------------------------------------------------------------- rows

  predicate Has(items: seq<Item>, id: ItemId) {
    exists i :: 0 <= i < |items| && items[i].id == id
  }

  function RowOf(items: seq<Item>, id: ItemId): Option<Item> {
    if items == [] then None else if items[0].id == id then Some(items[0]) else RowOf(items[1..], id)
  }

  function Count(items: seq<Item>, checked: bool): nat {
    if items == [] then 0 else (if items[0].checked == checked then 1 else 0) + Count(items[1..], checked)
  }

  predicate UniqueRows(items: seq<Item>) {
    forall i, j :: 0 <= i < j < |items| ==> items[i].id != items[j].id
  }

  function CheckedRow(row: Item, checked: bool, me: Option<User>, now: Time): Item {
    row.(checked := checked, checkedAt := if checked then Some(now) else None, boughtBy := if checked then me else None)
  }

  function EditedRow(row: Item, body: EditBody): Item {
    row.(name := if body.name.Some? then body.name.value else row.name,
         quantity := if body.quantity.Some? then body.quantity.value else row.quantity,
         unit := if body.unit.Some? then body.unit.value else row.unit,
         note := if body.note.Some? then body.note.value else row.note)
  }

  function CheckRows(items: seq<Item>, id: ItemId, checked: bool, me: Option<User>, now: Time): seq<Item> {
    if items == [] then []
    else [if items[0].id == id then CheckedRow(items[0], checked, me, now) else items[0]]
         + CheckRows(items[1..], id, checked, me, now)
  }

  function EditRows(items: seq<Item>, id: ItemId, body: EditBody): seq<Item> {
    if items == [] then []
    else [if items[0].id == id then EditedRow(items[0], body) else items[0]] + EditRows(items[1..], id, body)
  }

  function Without(items: seq<Item>, id: ItemId): seq<Item> {
    if items == [] then []
    else if items[0].id == id then Without(items[1..], id)
    else [items[0]] + Without(items[1..], id)
  }

  function OptimisticRow(id: ItemId, p: AddPayload, me: Option<User>, now: Time): Item {
    var checked := p.checked == Some(true);
    Item(id, p.name, if p.quantity.Some? then p.quantity.value else 1, if p.unit.Some? then p.unit.value else "amount",
         if p.note.Some? then p.note.value else None, checked, if checked then Some(now) else None, me,
         if checked then me else None)
  }

  // ---------------------------------------------------------------- the overview

  /** patchListSummary: sets the counts on the list's row, if the overview is cached. */
  function Patch(overview: Option<seq<Summary>>, list: ListId, open: int, checked: int): Option<seq<Summary>> {
    if overview.None? then None
    else
      Some(seq(|overview.value|, i requires 0 <= i < |overview.value| =>
        if overview.value[i].list == list then Summary(list, open, checked) else overview.value[i]))
  }

  /** Adds to the counts on the list's row. */
  function Bump(overview: Option<seq<Summary>>, list: ListId, open: int, checked: int): Option<seq<Summary>> {
    if overview.None? then None
    else
      Some(seq(|overview.value|, i requires 0 <= i < |overview.value| =>
        if overview.value[i].list == list
        then Summary(list, overview.value[i].open + open, overview.value[i].checked + checked)
        else overview.value[i]))
  }

  // ---------------------------------------------------------------- the outbox

  /** A create that has not reached the server: paused, or retrying while offline. */
  predicate IsQueuedCreate(m: Mutation, id: ItemId, online: bool) {
    m.AddMutation? && m.tempId == id && (m.paused || !online)
  }

  /** findPausedCreate */
  predicate Queued(outbox: seq<Mutation>, id: ItemId, online: bool) {
    exists i :: 0 <= i < |outbox| && IsQueuedCreate(outbox[i], id, online)
  }

  /** Folds a change into the first queued create for the id. */
  function FoldInto(outbox: seq<Mutation>, id: ItemId, online: bool, change: Change): seq<Mutation> {
    if outbox == [] then []
    else if IsQueuedCreate(outbox[0], id, online)
    then [outbox[0].(payload := Merge(outbox[0].payload, change))] + outbox[1..]
    else [outbox[0]] + FoldInto(outbox[1..], id, online, change)
  }

  function Cancel(outbox: seq<Mutation>, id: ItemId, online: bool): seq<Mutation> {
    if outbox == [] then []
    else if IsQueuedCreate(outbox[0], id, online) then outbox[1..]
    else [outbox[0]] + Cancel(outbox[1..], id, online)
  }

  function PauseCreate(outbox: seq<Mutation>, id: ItemId): seq<Mutation> {
    if outbox == [] then []
    else [if outbox[0].AddMutation? && outbox[0].tempId == id then outbox[0].(paused := true) else outbox[0]]
         + PauseCreate(outbox[1..], id)
  }

  // ---------------------------------------------------------------- the screen's operations

  datatype Op =
    | AddOp(tempId: ItemId, payload: AddPayload, now: Time)
    | EditOp(id: ItemId, body: EditBody)
    | ToggleOp(id: ItemId, now: Time)
    | RemoveOp(id: ItemId)
    | UndoOp(id: ItemId, tempId: ItemId, now: Time)
    | PauseOp(id: ItemId)
    | OnlineOp(online: bool)

  function AddLocally(c: Client, tempId: ItemId, payload: AddPayload, now: Time): Client {
    var row := OptimisticRow(tempId, payload, c.me, now);
    var open := c.detail.open + if row.checked then 0 else 1;
    var checked := c.detail.checked + if row.checked then 1 else 0;
    c.(detail := Detail(c.detail.items + [row], open, checked),
       overview := Patch(c.overview, c.list, open, checked))
  }

  function AddItem(c: Client, tempId: ItemId, payload: AddPayload, now: Time): Client {
    var local := AddLocally(c, tempId, payload, now);
    local.(outbox := c.outbox + [AddMutation(c.list, tempId, payload, false)])
  }

  function ToggleLocally(c: Client, id: ItemId, checked: bool, now: Time): Client {
    var open := c.detail.open + if checked then -1 else 1;
    var done := c.detail.checked + if checked then 1 else -1;
    c.(detail := Detail(CheckRows(c.detail.items, id, checked, c.me, now), open, done),
       overview := Patch(c.overview, c.list, open, done))
  }

  function SetChecked(c: Client, id: ItemId, checked: bool, now: Time): Client {
    var local := ToggleLocally(c, id, checked, now);
    if id.Temp? && Queued(c.outbox, id, c.online)
    then local.(outbox := FoldInto(c.outbox, id, c.online, if checked then Check else Uncheck))
    else local.(outbox := c.outbox + [CheckMutation(c.list, id, checked)])
  }

  function EditItem(c: Client, id: ItemId, body: EditBody): Client {
    var local := c.(detail := c.detail.(items := EditRows(c.detail.items, id, body)));
    if id.Temp? && Queued(c.outbox, id, c.online)
    then local.(outbox := FoldInto(c.outbox, id, c.online, Edit(body)))
    else local.(outbox := c.outbox + [EditMutation(c.list, id, body)])
  }

  function RemoveLocally(c: Client, row: Item): Client {
    var open := if row.checked then 0 else -1;
    var checked := if row.checked then -1 else 0;
    c.(detail := Detail(Without(c.detail.items, row.id), c.detail.open + open, c.detail.checked + checked),
       overview := Bump(c.overview, c.list, open, checked))
  }

  function RestoreLocally(c: Client, row: Item): Client {
    var open := if row.checked then 0 else 1;
    var checked := if row.checked then 1 else 0;
    c.(detail := Detail(c.detail.items + [row], c.detail.open + open, c.detail.checked + checked),
       overview := Bump(c.overview, c.list, open, checked))
  }

  function DeleteQueued(c: Client, id: ItemId): Client {
    if id.Temp? && Queued(c.outbox, id, c.online)
    then c.(outbox := Cancel(c.outbox, id, c.online))
    else c.(outbox := c.outbox + [DeleteMutation(c.list, id)])
  }

  /** The list screen's remove: the row goes, the delete is queued, the undo is offered. */
  function RemoveItem(c: Client, row: Item): Client {
    var removed := DeleteQueued(RemoveLocally(c, row), row.id);
    removed.(undo := c.undo[row.id := row])
  }

  /** Undoing the removal of an unsynced row adds it afresh, and without its unit. */
  function ReaddPayload(row: Item): AddPayload {
    AddPayload(row.name, Some(row.quantity), None, Some(row.note), Some(row.checked))
  }

  function UndoRemoval(c: Client, row: Item, tempId: ItemId, now: Time): Client {
    var taken := c.(undo := c.undo - {row.id});
    if row.id.Temp? then AddItem(taken, tempId, ReaddPayload(row), now)
    else
      var restored := RestoreLocally(taken, row);
      restored.(outbox := taken.outbox + [RestoreMutation(c.list, row)])
  }

  /** randomId never mints an id twice. */
  predicate Unseen(c: Client, id: ItemId) {
    && id.Temp? && !Has(c.detail.items, id) && id !in c.undo
    && forall i :: 0 <= i < |c.outbox| && c.outbox[i].AddMutation? ==> c.outbox[i].tempId != id
  }

  /** An operation on a row that is not on the screen cannot be asked for. */
  function Do(c: Client, op: Op): Client {
    match op
    case AddOp(tempId, payload, now) => if Unseen(c, tempId) then AddItem(c, tempId, payload, now) else c
    case EditOp(id, body) => if Has(c.detail.items, id) then EditItem(c, id, body) else c
    case ToggleOp(id, now) =>
      var row := RowOf(c.detail.items, id);
      if row.Some? then SetChecked(c, id, !row.value.checked, now) else c
    case RemoveOp(id) =>
      var row := RowOf(c.detail.items, id);
      if row.Some? then RemoveItem(c, row.value) else c
    case UndoOp(id, tempId, now) =>
      if id in c.undo && Unseen(c, tempId) then UndoRemoval(c, c.undo[id], tempId, now) else c
    case PauseOp(id) => c.(outbox := PauseCreate(c.outbox, id))
    case OnlineOp(online) => c.(online := online)
  }

  function DoAll(c: Client, ops: seq<Op>): Client
    decreases ops
  {
    if ops == [] then c else DoAll(Do(c, ops[0]), ops[1..])
  }

  // ---------------------------------------------------------------- counts

  /** The overview carries the detail's counts. */
  predicate OverviewAgrees(c: Client) {
    c.overview.Some? ==>
      forall i :: 0 <= i < |c.overview.value| && c.overview.value[i].list == c.list ==>
        c.overview.value[i] == Summary(c.list, c.detail.open, c.detail.checked)
  }

  /** The cached counts are the numbers of cached rows. */
  predicate CountsAgree(c: Client) {
    && c.detail.open == Count(c.detail.items, false)
    && c.detail.checked == Count(c.detail.items, true)
    && OverviewAgrees(c)
  }

  ghost predicate Consistent(c: Client) {
    && CountsAgree(c)
    && UniqueRows(c.detail.items)
    && (forall id :: id in c.undo ==> c.undo[id].id == id && !Has(c.detail.items, id))
  }

  lemma {:induction false} CountAppend(items: seq<Item>, row: Item, checked: bool)
    ensures Count(items + [row], checked) == Count(items, checked) + if row.checked == checked then 1 else 0
    decreases items
  {
    if items != [] {
      assert (items + [row])[1..] == items[1..] + [row];
      CountAppend(items[1..], row, checked);
    } else {
      assert [row][1..] == [];
    }
  }

  lemma {:induction false} RowOfFinds(items: seq<Item>, id: ItemId)
    ensures RowOf(items, id).Some? <==> Has(items, id)
    ensures RowOf(items, id).Some? ==> RowOf(items, id).value in items && RowOf(items, id).value.id == id
    decreases items
  {
    if items == [] {
    } else {
      RowOfFinds(items[1..], id);
      if items[0].id != id && Has(items, id) {
        var i :| 0 <= i < |items| && items[i].id == id;
        assert items[1..][i - 1].id == id;
      }
    }
  }

  lemma {:induction false} RowOfWithout(items: seq<Item>, of: ItemId, id: ItemId)
    ensures RowOf(Without(items, of), id) == if id == of then None else RowOf(items, id)
    decreases items
  {
    if items == [] {
    } else {
      RowOfWithout(items[1..], of, id);
      if items[0].id != of {
        assert Without(items, of)[1..] == Without(items[1..], of);
      }
    }
  }

  lemma HasTail(items: seq<Item>, id: ItemId)
    requires items != []
    ensures Has(items, id) <==> items[0].id == id || Has(items[1..], id)
  {
    if Has(items, id) && items[0].id != id {
      var i :| 0 <= i < |items| && items[i].id == id;
      assert items[1..][i - 1].id == id;
    }
  }

  lemma {:induction false} RowOfAppend(items: seq<Item>, row: Item, id: ItemId)
    requires !Has(items, row.id)
    ensures RowOf(items + [row], id) == if id == row.id then Some(row) else RowOf(items, id)
    decreases items
  {
    if items == [] {
      assert [] + [row] == [row] && [row][1..] == [];
    } else {
      assert (items + [row])[0] == items[0] && (items + [row])[1..] == items[1..] + [row];
      HasTail(items, row.id);
      RowOfAppend(items[1..], row, id);
    }
  }

  lemma {:induction false} RowOfUnique(items: seq<Item>, r: Item)
    requires UniqueRows(items) && r in items
    ensures RowOf(items, r.id) == Some(r)
    decreases items
  {
    if items[0] == r {
    } else {
      var i :| 0 <= i < |items| && items[i] == r;
      assert items[0].id != items[i].id && items[1..][i - 1] == r;
      assert forall j, k :: 0 <= j < k < |items| - 1 ==> items[1..][j].id != items[1..][k].id;
      RowOfUnique(items[1..], r);
    }
  }

  lemma {:induction false} RowOfEdit(items: seq<Item>, of: ItemId, body: EditBody, id: ItemId)
    ensures RowOf(EditRows(items, of, body), id)
            == if id == of && RowOf(items, id).Some? then Some(EditedRow(RowOf(items, id).value, body)) else RowOf(items, id)
    decreases items
  {
    if items == [] {
    } else {
      RowOfEdit(items[1..], of, body, id);
    }
  }

  lemma {:induction false} RowOfCheck(items: seq<Item>, of: ItemId, checked: bool, me: Option<User>, at: Time, id: ItemId)
    ensures RowOf(CheckRows(items, of, checked, me, at), id)
            == if id == of && RowOf(items, id).Some? then Some(CheckedRow(RowOf(items, id).value, checked, me, at))
               else RowOf(items, id)
    decreases items
  {
    if items == [] {
    } else {
      RowOfCheck(items[1..], of, checked, me, at, id);
    }
  }

  lemma {:induction false} WithoutAbsent(items: seq<Item>, id: ItemId)
    requires !Has(items, id)
    ensures Without(items, id) == items
    decreases items
  {
    if items == [] {
    } else {
      HasTail(items, id);
      WithoutAbsent(items[1..], id);
    }
  }

  lemma {:induction false} WithoutCounts(items: seq<Item>, id: ItemId, checked: bool)
    requires UniqueRows(items)
    ensures Count(Without(items, id), checked)
            == Count(items, checked) - if RowOf(items, id).Some? && RowOf(items, id).value.checked == checked then 1 else 0
    ensures UniqueRows(Without(items, id)) && forall k :: Has(Without(items, id), k) <==> Has(items, k) && k != id
    decreases items
  {
    if items == [] {
    } else {
      var tail, rest := items[1..], Without(items[1..], id);
      WithoutCounts(tail, id, checked);
      forall k ensures Has(items, k) <==> items[0].id == k || Has(tail, k) {
        HasTail(items, k);
      }
      if items[0].id == id {
        assert !Has(tail, id);
        RowOfFinds(tail, id);
      } else {
        var all := [items[0]] + rest;
        assert all[1..] == rest;
        forall k ensures Has(all, k) <==> items[0].id == k || Has(rest, k) {
          HasTail(all, k);
        }
        assert !Has(tail, items[0].id);
        assert forall j :: 0 <= j < |rest| ==> Has(rest, rest[j].id);
      }
    }
  }

  lemma {:induction false} CheckRowsIds(items: seq<Item>, id: ItemId, checked: bool, me: Option<User>, now: Time)
    ensures var rows := CheckRows(items, id, checked, me, now);
            && |rows| == |items| && (forall i :: 0 <= i < |items| ==> rows[i].id == items[i].id)
            && (RowOf(items, id).None? ==> rows == items)
    decreases items
  {
    if items == [] {
    } else {
      CheckRowsIds(items[1..], id, checked, me, now);
    }
  }

  /** A toggle moves one row from one count to the other. */
  lemma {:induction false} CheckRowsCounts(items: seq<Item>, id: ItemId, checked: bool, me: Option<User>, now: Time)
    requires UniqueRows(items) && RowOf(items, id).Some? && RowOf(items, id).value.checked != checked
    ensures var rows := CheckRows(items, id, checked, me, now);
            Count(rows, checked) == Count(items, checked) + 1 && Count(rows, !checked) == Count(items, !checked) - 1
    decreases items
  {
    if items[0].id == id {
      assert !Has(items[1..], id);
      RowOfFinds(items[1..], id);
      CheckRowsIds(items[1..], id, checked, me, now);
    } else {
      CheckRowsCounts(items[1..], id, checked, me, now);
    }
  }

  lemma {:induction false} EditRowsCounts(items: seq<Item>, id: ItemId, body: EditBody, checked: bool)
    ensures var rows := EditRows(items, id, body);
            && |rows| == |items| && Count(rows, checked) == Count(items, checked)
            && (forall i :: 0 <= i < |items| ==> rows[i].id == items[i].id)
    decreases items
  {
    if items == [] {
    } else {
      EditRowsCounts(items[1..], id, body, checked);
    }
  }

  lemma SameIds(items: seq<Item>, rows: seq<Item>)
    requires |rows| == |items|
    requires forall i :: 0 <= i < |items| ==> rows[i].id == items[i].id
    ensures UniqueRows(items) ==> UniqueRows(rows)
    ensures forall id :: Has(rows, id) <==> Has(items, id)
  {
    forall id ensures Has(rows, id) <==> Has(items, id) {
      if Has(rows, id) {
        var i :| 0 <= i < |rows| && rows[i].id == id;
        assert items[i].id == id;
      }
      if Has(items, id) {
        var i :| 0 <= i < |items| && items[i].id == id;
        assert rows[i].id == id;
      }
    }
  }

  lemma AppendRow(items: seq<Item>, row: Item)
    requires UniqueRows(items) && !Has(items, row.id)
    ensures UniqueRows(items + [row])
    ensures forall id :: Has(items + [row], id) <==> Has(items, id) || id == row.id
  {
    var all := items + [row];
    forall id ensures Has(all, id) <==> Has(items, id) || id == row.id {
      if Has(items, id) {
        var i :| 0 <= i < |items| && items[i].id == id;
        assert all[i].id == id;
      }
      assert all[|items|].id == row.id;
    }
  }

  lemma AddKeeps(c: Client, tempId: ItemId, payload: AddPayload, now: Time)
    requires Consistent(c) && Unseen(c, tempId)
    ensures Consistent(AddItem(c, tempId, payload, now))
  {
    var row := OptimisticRow(tempId, payload, c.me, now);
    CountAppend(c.detail.items, row, false);
    CountAppend(c.detail.items, row, true);
    AppendRow(c.detail.items, row);
  }

  lemma ToggledRows(items: seq<Item>, id: ItemId, checked: bool, me: Option<User>, now: Time)
    requires UniqueRows(items)
    ensures var rows := CheckRows(items, id, checked, me, now);
            UniqueRows(rows) && forall k :: Has(rows, k) <==> Has(items, k)
  {
    CheckRowsIds(items, id, checked, me, now);
    SameIds(items, CheckRows(items, id, checked, me, now));
  }

  lemma ToggleKeeps(c: Client, id: ItemId, checked: bool, now: Time)
    requires Consistent(c) && RowOf(c.detail.items, id).Some? && RowOf(c.detail.items, id).value.checked != checked
    ensures Consistent(SetChecked(c, id, checked, now))
  {
    CheckRowsCounts(c.detail.items, id, checked, c.me, now);
    ToggledRows(c.detail.items, id, checked, c.me, now);
  }

  lemma EditKeeps(c: Client, id: ItemId, body: EditBody)
    requires Consistent(c)
    ensures Consistent(EditItem(c, id, body))
  {
    EditRowsCounts(c.detail.items, id, body, false);
    EditRowsCounts(c.detail.items, id, body, true);
    SameIds(c.detail.items, EditRows(c.detail.items, id, body));
  }

  lemma RemoveKeeps(c: Client, row: Item)
    requires Consistent(c) && RowOf(c.detail.items, row.id) == Some(row)
    ensures Consistent(RemoveItem(c, row))
  {
    WithoutCounts(c.detail.items, row.id, false);
    WithoutCounts(c.detail.items, row.id, true);
  }

  lemma RestoreKeeps(c: Client, row: Item)
    requires Consistent(c) && !Has(c.detail.items, row.id)
    ensures Consistent(RestoreLocally(c.(undo := c.undo - {row.id}), row))
  {
    CountAppend(c.detail.items, row, false);
    CountAppend(c.detail.items, row, true);
    AppendRow(c.detail.items, row);
  }

  lemma DoKeeps(c: Client, op: Op)
    requires Consistent(c)
    ensures Consistent(Do(c, op))
  {
    match op {
      case AddOp(tempId, payload, now) =>
        if Unseen(c, tempId) {
          AddKeeps(c, tempId, payload, now);
        }
      case EditOp(id, body) => EditKeeps(c, id, body);
      case ToggleOp(id, now) =>
        if RowOf(c.detail.items, id).Some? {
          ToggleKeeps(c, id, !RowOf(c.detail.items, id).value.checked, now);
        }
      case RemoveOp(id) =>
        RowOfFinds(c.detail.items, id);
        if RowOf(c.detail.items, id).Some? {
          RemoveKeeps(c, RowOf(c.detail.items, id).value);
        }
      case UndoOp(id, tempId, now) =>
        if id in c.undo && Unseen(c, tempId) {
          if id.Temp? {
            AddKeeps(c.(undo := c.undo - {id}), tempId, ReaddPayload(c.undo[id]), now);
          } else {
            RestoreKeeps(c, c.undo[id]);
          }
        }
      case PauseOp(id) =>
      case OnlineOp(online) =>
    }
  }

  /**
   Through every sequence of optimistic adds, folds, edits, toggles, removes and
   undos the list screen can make between server responses, the cached open and
   checked counts equal the numbers of open and checked cached rows, and the overview
   row carries the same two numbers.
   */
  lemma {:induction false} CachedCountsAgree(c: Client, ops: seq<Op>)
    requires Consistent(c)
    ensures Consistent(DoAll(c, ops)) && CountsAgree(DoAll(c, ops))
    decreases ops
  {
    if ops == [] {
    } else {
      DoKeeps(c, ops[0]);
      CachedCountsAgree(Do(c, ops[0]), ops[1..]);
    }
  }

  lemma {:induction false} RecheckedRowsCount(items: seq<Item>, id: ItemId, checked: bool, me: Option<User>, now: Time, of: bool)
    requires UniqueRows(items) && RowOf(items, id).Some? && RowOf(items, id).value.checked == checked
    ensures Count(CheckRows(items, id, checked, me, now), of) == Count(items, of)
    decreases items
  {
    if items[0].id == id {
      assert !Has(items[1..], id);
      RowOfFinds(items[1..], id);
      CheckRowsIds(items[1..], id, checked, me, now);
    } else {
      RecheckedRowsCount(items[1..], id, checked, me, now, of);
    }
  }

  /**
   A toggle takes the state it sets from the row as the screen shows it, which may be
   older than the cache. It leaves the counts right exactly when the cached row is there
   and in the other state.
   */
  lemma ToggleCountsExactly(c: Client, id: ItemId, checked: bool, now: Time)
    requires Consistent(c)
    ensures CountsAgree(ToggleLocally(c, id, checked, now)) <==>
            RowOf(c.detail.items, id).Some? && RowOf(c.detail.items, id).value.checked != checked
  {
    var row := RowOf(c.detail.items, id);
    CheckRowsIds(c.detail.items, id, checked, c.me, now);
    if row.Some? {
      if row.value.checked == checked {
        RecheckedRowsCount(c.detail.items, id, checked, c.me, now, true);
      } else {
        CheckRowsCounts(c.detail.items, id, checked, c.me, now);
      }
    }
  }

  /** A removal leaves the counts right exactly when the cached row is there and in the state shown. */
  lemma RemovalCountsExactly(c: Client, row: Item)
    requires Consistent(c)
    ensures CountsAgree(RemoveLocally(c, row)) <==>
            RowOf(c.detail.items, row.id).Some? && RowOf(c.detail.items, row.id).value.checked == row.checked
  {
    WithoutCounts(c.detail.items, row.id, false);
    WithoutCounts(c.detail.items, row.id, true);
  }

  // ---------------------------------------------------------------- what is shown

  /**
   Folding reaches a create exactly while it has not been sent: offline, or once it is
   paused. An unpaused one is under way as soon as the client is online.
   */
  lemma CreatesAreQueued(c: Client, id: ItemId)
    requires exists i :: 0 <= i < |c.outbox| && c.outbox[i].AddMutation? && c.outbox[i].tempId == id
    ensures Queued(Do(c, OnlineOp(false)).outbox, id, Do(c, OnlineOp(false)).online)
    ensures Queued(Do(c, PauseOp(id)).outbox, id, true)
    ensures (forall i :: 0 <= i < |c.outbox| && c.outbox[i].AddMutation? && c.outbox[i].tempId == id ==> !c.outbox[i].paused)
            ==> !Queued(Do(c, OnlineOp(true)).outbox, id, Do(c, OnlineOp(true)).online)
  {
    var i :| 0 <= i < |c.outbox| && c.outbox[i].AddMutation? && c.outbox[i].tempId == id;
    assert IsQueuedCreate(c.outbox[i], id, false);
    PausedAt(c.outbox, id, i);
    assert IsQueuedCreate(PauseCreate(c.outbox, id)[i], id, true);
  }

  lemma {:induction false} PausedAt(outbox: seq<Mutation>, id: ItemId, i: nat)
    requires i < |outbox|
    ensures |PauseCreate(outbox, id)| == |outbox|
    ensures PauseCreate(outbox, id)[i]
            == if outbox[i].AddMutation? && outbox[i].tempId == id then outbox[i].(paused := true) else outbox[i]
    decreases outbox
  {
    if |outbox| == 1 {
    } else {
      PausedAt(outbox[1..], id, if i == 0 then 0 else i - 1);
    }
  }

  /** The other rows are shown as they were. */
  ghost predicate OtherRowsStay(c: Client, d: Client, id: ItemId) {
    && d.list == c.list && d.me == c.me && d.online == c.online
    && forall other :: other != id ==> RowOf(d.detail.items, other) == RowOf(c.detail.items, other)
  }

  /** The rows are in the places they were in. */
  ghost predicate SamePlaces(c: Client, d: Client) {
    |d.detail.items| == |c.detail.items| && forall k :: 0 <= k < |c.detail.items| ==> d.detail.items[k].id == c.detail.items[k].id
  }

  /** A new row comes last, with what was entered and the defaults for what was not, as the user's own. */
  lemma AddIsShown(c: Client, id: ItemId, p: AddPayload, now: Time)
    requires Unseen(c, id)
    ensures var d, n := Do(c, AddOp(id, p, now)), |c.detail.items|;
            && |d.detail.items| == n + 1 && d.detail.items[..n] == c.detail.items && OtherRowsStay(c, d, id)
            && var row := d.detail.items[n];
            && RowOf(d.detail.items, id) == Some(row)
            && row.id == id && row.name == p.name && row.quantity == (if p.quantity.Some? then p.quantity.value else 1)
            && row.unit == (if p.unit.Some? then p.unit.value else "amount")
            && row.note == (if p.note.Some? then p.note.value else None)
            && row.addedBy == c.me && (row.checked <==> p.checked == Some(true))
            && row.checkedAt == (if row.checked then Some(now) else None) && row.boughtBy == (if row.checked then c.me else None)
            && d.outbox == c.outbox + [AddMutation(c.list, id, p, false)] && d.undo == c.undo
  {
    var row := OptimisticRow(id, p, c.me, now);
    forall other ensures RowOf(c.detail.items + [row], other) == if other == id then Some(row) else RowOf(c.detail.items, other) {
      RowOfAppend(c.detail.items, row, other);
    }
  }

  /** A toggle turns the row's state round, with its time and its buyer, and nothing else. */
  lemma ToggleIsShown(c: Client, id: ItemId, now: Time)
    requires RowOf(c.detail.items, id).Some?
    ensures var was, d := RowOf(c.detail.items, id).value, Do(c, ToggleOp(id, now));
            && OtherRowsStay(c, d, id) && SamePlaces(c, d) && d.undo == c.undo
            && RowOf(d.detail.items, id)
               == Some(was.(checked := !was.checked, checkedAt := if was.checked then None else Some(now),
                            boughtBy := if was.checked then None else c.me))
  {
    var checked := !RowOf(c.detail.items, id).value.checked;
    forall other ensures RowOf(CheckRows(c.detail.items, id, checked, c.me, now), other)
                         == if other == id && RowOf(c.detail.items, id).Some?
                            then Some(CheckedRow(RowOf(c.detail.items, id).value, checked, c.me, now))
                            else RowOf(c.detail.items, other) {
      RowOfCheck(c.detail.items, id, checked, c.me, now, other);
    }
    CheckRowsIds(c.detail.items, id, checked, c.me, now);
  }

  /** An edit gives the row what it gives and leaves the rest. */
  lemma EditIsShown(c: Client, id: ItemId, body: EditBody)
    requires RowOf(c.detail.items, id).Some?
    ensures var was, d := RowOf(c.detail.items, id).value, Do(c, EditOp(id, body));
            && OtherRowsStay(c, d, id) && SamePlaces(c, d) && d.undo == c.undo
            && RowOf(d.detail.items, id)
               == Some(was.(name := if body.name.Some? then body.name.value else was.name,
                            quantity := if body.quantity.Some? then body.quantity.value else was.quantity,
                            unit := if body.unit.Some? then body.unit.value else was.unit,
                            note := if body.note.Some? then body.note.value else was.note))
  {
    RowOfFinds(c.detail.items, id);
    forall other ensures RowOf(EditRows(c.detail.items, id, body), other)
                         == if other == id && RowOf(c.detail.items, id).Some?
                            then Some(EditedRow(RowOf(c.detail.items, id).value, body))
                            else RowOf(c.detail.items, other) {
      RowOfEdit(c.detail.items, id, body, other);
    }
    EditRowsIds(c.detail.items, id, body);
  }

  lemma {:induction false} EditRowsIds(items: seq<Item>, id: ItemId, body: EditBody)
    ensures var rows := EditRows(items, id, body);
            |rows| == |items| && forall k :: 0 <= k < |items| ==> rows[k].id == items[k].id
    decreases items
  {
    if items == [] {
    } else {
      EditRowsIds(items[1..], id, body);
    }
  }

  /** A removed row is gone, and its removal can be undone. */
  lemma RemovalIsShown(c: Client, id: ItemId)
    requires RowOf(c.detail.items, id).Some?
    ensures var d := Do(c, RemoveOp(id));
            && OtherRowsStay(c, d, id) && RowOf(d.detail.items, id).None?
            && d.undo == c.undo[id := RowOf(c.detail.items, id).value]
  {
    RowOfFinds(c.detail.items, id);
    forall other ensures RowOf(Without(c.detail.items, id), other) == if other == id then None else RowOf(c.detail.items, other) {
      RowOfWithout(c.detail.items, id, other);
    }
  }

  /** The overview's rows keep their places, and the other lists' rows their counts. */
  ghost predicate OverviewElsewhere(before: Option<seq<Summary>>, after: Option<seq<Summary>>, list: ListId) {
    && (after.Some? <==> before.Some?)
    && (after.Some? ==>
          && |after.value| == |before.value|
          && forall i :: 0 <= i < |after.value| ==>
               && after.value[i].list == before.value[i].list
               && (after.value[i].list != list ==> after.value[i] == before.value[i]))
  }

  lemma PatchedElsewhere(overview: Option<seq<Summary>>, list: ListId, open: int, checked: int)
    ensures OverviewElsewhere(overview, Patch(overview, list, open, checked), list)
    ensures OverviewElsewhere(overview, Bump(overview, list, open, checked), list)
  {
  }

  /** Nothing that is done on one list's screen changes what the overview says of another. */
  lemma OtherListsStay(c: Client, op: Op)
    ensures OverviewElsewhere(c.overview, Do(c, op).overview, c.list)
  {
    forall open, checked
      ensures OverviewElsewhere(c.overview, Patch(c.overview, c.list, open, checked), c.list)
      ensures OverviewElsewhere(c.overview, Bump(c.overview, c.list, open, checked), c.list)
    {
      PatchedElsewhere(c.overview, c.list, open, checked);
    }
  }
}
