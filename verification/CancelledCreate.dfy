/**
 A create that is cancelled while it is still queued leaves no trace
 (frontend/src/queries.ts, frontend/src/ListDetail.tsx): adding an item, changing it
 any number of times and removing it ends in the outbox, rows and counts of the same
 session without that item. The proof erases the item from every intermediate state
 and shows that erasing commutes with each operation on anything else.
 */
module CancelledCreate {

  import opened Results
  import opened Fold
  import opened ClientCache

  /** The operations that change the item itself. */
  predicate Changes(op: Op, id: ItemId) {
    (op.EditOp? || op.ToggleOp?) && op.id == id
  }

  /** randomId does not mint the id again, and the item is not removed yet. */
  predicate LeavesAlone(op: Op, id: ItemId) {
    match op
    case AddOp(tempId, _, _) => tempId != id
    case UndoOp(_, tempId, _) => tempId != id
    case RemoveOp(removed) => removed != id
    case _ => true
  }

  function OnOthers(ops: seq<Op>, id: ItemId): seq<Op> {
    if ops == [] then []
    else if Changes(ops[0], id) then OnOthers(ops[1..], id)
    else [ops[0]] + OnOthers(ops[1..], id)
  }

  /** The create is queued whenever the item is changed, and at the end. */
  predicate StaysQueued(c: Client, id: ItemId, ops: seq<Op>)
    decreases ops
  {
    if ops == [] then Queued(c.outbox, id, c.online)
    else
      && (Changes(ops[0], id) ==> Queued(c.outbox, id, c.online))
      && StaysQueued(Do(c, ops[0]), id, ops[1..])
  }

  // ---------------------------------------------------------------- erasing

  predicate IsCreate(m: Mutation, id: ItemId) {
    m.AddMutation? && m.tempId == id
  }

  function WithoutCreate(outbox: seq<Mutation>, id: ItemId): seq<Mutation> {
    if outbox == [] then []
    else if IsCreate(outbox[0], id) then WithoutCreate(outbox[1..], id)
    else [outbox[0]] + WithoutCreate(outbox[1..], id)
  }

  function Creates(outbox: seq<Mutation>, id: ItemId): nat {
    if outbox == [] then 0 else (if IsCreate(outbox[0], id) then 1 else 0) + Creates(outbox[1..], id)
  }

  function Erase(c: Client, id: ItemId): Client {
    var rows := Without(c.detail.items, id);
    var open, checked := Count(rows, false), Count(rows, true);
    c.(detail := Detail(rows, open, checked),
       overview := Patch(c.overview, c.list, open, checked),
       outbox := WithoutCreate(c.outbox, id))
  }

  ghost predicate Pending(c: Client, id: ItemId) {
    Consistent(c) && id.Temp? && Has(c.detail.items, id) && Creates(c.outbox, id) == 1
  }

  /** Equal up to the counts, which follow from the rows. */
  predicate Alike(c: Client, d: Client) {
    && c.list == d.list && c.me == d.me && c.online == d.online && c.detail.items == d.detail.items
    && c.outbox == d.outbox && c.undo == d.undo && Patch(c.overview, c.list, 0, 0) == Patch(d.overview, d.list, 0, 0)
  }

  lemma AlikeIsEqual(c: Client, d: Client)
    requires CountsAgree(c) && CountsAgree(d) && Alike(c, d)
    ensures c == d
  {
    assert c.detail == d.detail;
    if c.overview.Some? {
      var p, q := Patch(c.overview, c.list, 0, 0).value, Patch(d.overview, d.list, 0, 0).value;
      forall i | 0 <= i < |c.overview.value| ensures c.overview.value[i] == d.overview.value[i] {
        assert p[i] == q[i];
      }
      assert c.overview.value == d.overview.value;
    }
  }

  lemma PatchTwice(overview: Option<seq<Summary>>, list: ListId, a: int, b: int, x: int, y: int)
    ensures Patch(Patch(overview, list, a, b), list, x, y) == Patch(overview, list, x, y)
    ensures Patch(Bump(overview, list, a, b), list, x, y) == Patch(overview, list, x, y)
  {
    if overview.Some? {
      assert Patch(Patch(overview, list, a, b), list, x, y).value == Patch(overview, list, x, y).value;
      assert Patch(Bump(overview, list, a, b), list, x, y).value == Patch(overview, list, x, y).value;
    }
  }

  // ---------------------------------------------------------------- rows

  lemma {:induction false} WithoutAppend(items: seq<Item>, row: Item, id: ItemId)
    ensures Without(items + [row], id) == Without(items, id) + if row.id == id then [] else [row]
    decreases items
  {
    if items == [] {
      assert [] + [row] == [row] && [row][1..] == [];
    } else {
      assert (items + [row])[1..] == items[1..] + [row];
      WithoutAppend(items[1..], row, id);
    }
  }

  lemma {:induction false} WithoutCheckRows(items: seq<Item>, id: ItemId, of: ItemId, checked: bool, me: Option<User>, now: Time)
    ensures Without(CheckRows(items, of, checked, me, now), id)
            == if of == id then Without(items, id) else CheckRows(Without(items, id), of, checked, me, now)
    decreases items
  {
    if items == [] {
    } else {
      WithoutCheckRows(items[1..], id, of, checked, me, now);
      var rows := CheckRows(items, of, checked, me, now);
      assert rows[1..] == CheckRows(items[1..], of, checked, me, now);
      if items[0].id != id {
        assert Without(items, id)[1..] == Without(items[1..], id);
      }
    }
  }

  lemma {:induction false} WithoutEditRows(items: seq<Item>, id: ItemId, of: ItemId, body: EditBody)
    ensures Without(EditRows(items, of, body), id)
            == if of == id then Without(items, id) else EditRows(Without(items, id), of, body)
    decreases items
  {
    if items == [] {
    } else {
      WithoutEditRows(items[1..], id, of, body);
      var rows := EditRows(items, of, body);
      assert rows[1..] == EditRows(items[1..], of, body);
      if items[0].id != id {
        assert Without(items, id)[1..] == Without(items[1..], id);
      }
    }
  }

  lemma {:induction false} WithoutSwaps(items: seq<Item>, id: ItemId, other: ItemId)
    ensures Without(Without(items, other), id) == Without(Without(items, id), other)
    decreases items
  {
    if items == [] {
    } else {
      WithoutSwaps(items[1..], id, other);
      if items[0].id != id {
        assert Without(items, id)[1..] == Without(items[1..], id);
      }
      if items[0].id != other {
        assert Without(items, other)[1..] == Without(items[1..], other);
      }
    }
  }

  // ---------------------------------------------------------------- the outbox

  lemma {:induction false} OutboxAppend(outbox: seq<Mutation>, m: Mutation, id: ItemId)
    ensures WithoutCreate(outbox + [m], id) == WithoutCreate(outbox, id) + if IsCreate(m, id) then [] else [m]
    ensures Creates(outbox + [m], id) == Creates(outbox, id) + if IsCreate(m, id) then 1 else 0
    decreases outbox
  {
    if outbox == [] {
      assert [] + [m] == [m] && [m][1..] == [];
    } else {
      assert (outbox + [m])[1..] == outbox[1..] + [m];
      OutboxAppend(outbox[1..], m, id);
    }
  }

  lemma {:induction false} NoCreates(outbox: seq<Mutation>, id: ItemId)
    requires forall i :: 0 <= i < |outbox| && outbox[i].AddMutation? ==> outbox[i].tempId != id
    ensures WithoutCreate(outbox, id) == outbox && Creates(outbox, id) == 0
    decreases outbox
  {
    if outbox == [] {
    } else {
      assert forall i :: 0 <= i < |outbox[1..]| ==> outbox[1..][i] == outbox[i + 1];
      NoCreates(outbox[1..], id);
    }
  }

  lemma {:induction false} WithoutCreateKeepsOthers(outbox: seq<Mutation>, id: ItemId, m: Mutation)
    requires !IsCreate(m, id)
    ensures m in WithoutCreate(outbox, id) <==> m in outbox
    decreases outbox
  {
    if outbox == [] {
    } else {
      WithoutCreateKeepsOthers(outbox[1..], id, m);
      assert outbox == [outbox[0]] + outbox[1..];
    }
  }

  lemma QueuedElsewhere(outbox: seq<Mutation>, id: ItemId, other: ItemId, online: bool)
    requires id != other
    ensures Queued(WithoutCreate(outbox, id), other, online) <==> Queued(outbox, other, online)
  {
    var rest := WithoutCreate(outbox, id);
    if Queued(outbox, other, online) {
      var i :| 0 <= i < |outbox| && IsQueuedCreate(outbox[i], other, online);
      WithoutCreateKeepsOthers(outbox, id, outbox[i]);
    }
    if Queued(rest, other, online) {
      var i :| 0 <= i < |rest| && IsQueuedCreate(rest[i], other, online);
      WithoutCreateKeepsOthers(outbox, id, rest[i]);
    }
  }

  lemma {:induction false} FoldErases(outbox: seq<Mutation>, id: ItemId, of: ItemId, online: bool, change: Change)
    ensures WithoutCreate(FoldInto(outbox, of, online, change), id)
            == if of == id then WithoutCreate(outbox, id) else FoldInto(WithoutCreate(outbox, id), of, online, change)
    ensures Creates(FoldInto(outbox, of, online, change), id) == Creates(outbox, id)
    decreases outbox
  {
    if outbox == [] {
    } else {
      FoldErases(outbox[1..], id, of, online, change);
      var folded := FoldInto(outbox, of, online, change);
      if IsQueuedCreate(outbox[0], of, online) {
        assert folded[1..] == outbox[1..];
      } else {
        assert folded[1..] == FoldInto(outbox[1..], of, online, change);
      }
      if !IsCreate(outbox[0], id) {
        assert WithoutCreate(outbox, id)[1..] == WithoutCreate(outbox[1..], id);
      }
    }
  }

  lemma {:induction false} CancelElsewhere(outbox: seq<Mutation>, id: ItemId, other: ItemId, online: bool)
    requires id != other
    ensures WithoutCreate(Cancel(outbox, other, online), id) == Cancel(WithoutCreate(outbox, id), other, online)
    ensures Creates(Cancel(outbox, other, online), id) == Creates(outbox, id)
    decreases outbox
  {
    if outbox == [] {
    } else {
      CancelElsewhere(outbox[1..], id, other, online);
      if !IsQueuedCreate(outbox[0], other, online) {
        assert Cancel(outbox, other, online)[1..] == Cancel(outbox[1..], other, online);
      }
      if !IsCreate(outbox[0], id) {
        assert WithoutCreate(outbox, id)[1..] == WithoutCreate(outbox[1..], id);
      }
    }
  }

  lemma {:induction false} NoneLeft(outbox: seq<Mutation>, id: ItemId)
    requires Creates(outbox, id) == 0
    ensures WithoutCreate(outbox, id) == outbox && forall m :: m in outbox ==> !IsCreate(m, id)
    decreases outbox
  {
    if outbox == [] {
    } else {
      NoneLeft(outbox[1..], id);
      assert outbox == [outbox[0]] + outbox[1..];
    }
  }

  /** Cancelling the only create for the id takes every trace of it out of the outbox. */
  lemma {:induction false} CancelErases(outbox: seq<Mutation>, id: ItemId, online: bool)
    requires Creates(outbox, id) == 1 && Queued(outbox, id, online)
    ensures Cancel(outbox, id, online) == WithoutCreate(outbox, id)
    decreases outbox
  {
    var i :| 0 <= i < |outbox| && IsQueuedCreate(outbox[i], id, online);
    if IsCreate(outbox[0], id) {
      NoneLeft(outbox[1..], id);
      if i > 0 {
        assert outbox[i] in outbox[1..];
      }
    } else {
      assert outbox[1..][i - 1] == outbox[i];
      CancelErases(outbox[1..], id, online);
    }
  }

  lemma {:induction false} PauseErases(outbox: seq<Mutation>, id: ItemId, of: ItemId)
    ensures WithoutCreate(PauseCreate(outbox, of), id) == PauseCreate(WithoutCreate(outbox, id), of)
    ensures Creates(PauseCreate(outbox, of), id) == Creates(outbox, id)
    decreases outbox
  {
    if outbox == [] {
    } else {
      PauseErases(outbox[1..], id, of);
      assert PauseCreate(outbox, of)[1..] == PauseCreate(outbox[1..], of);
      if !IsCreate(outbox[0], id) {
        assert WithoutCreate(outbox, id)[1..] == WithoutCreate(outbox[1..], id);
      }
    }
  }

  // ---------------------------------------------------------------- one operation

  lemma EraseIsConsistent(c: Client, id: ItemId)
    requires Consistent(c)
    ensures Consistent(Erase(c, id))
  {
    WithoutCounts(c.detail.items, id, true);
  }

  lemma UnseenErased(c: Client, id: ItemId, other: ItemId)
    requires Consistent(c) && id != other
    ensures Unseen(Erase(c, id), other) <==> Unseen(c, other)
  {
    WithoutCounts(c.detail.items, id, true);
    var rest := WithoutCreate(c.outbox, id);
    forall m | !IsCreate(m, id) ensures m in rest <==> m in c.outbox {
      WithoutCreateKeepsOthers(c.outbox, id, m);
    }
    forall i | 0 <= i < |rest| && IsCreate(rest[i], other) ensures rest[i] in c.outbox {
    }
    forall i | 0 <= i < |c.outbox| && IsCreate(c.outbox[i], other) ensures c.outbox[i] in rest {
    }
  }

  lemma OverviewKeepsOthers(c: Client, op: Op)
    ensures var after := Do(c, op);
            && after.list == c.list && after.me == c.me
            && Patch(after.overview, c.list, 0, 0) == Patch(c.overview, c.list, 0, 0)
  {
    forall a, b
      ensures Patch(Patch(c.overview, c.list, a, b), c.list, 0, 0) == Patch(c.overview, c.list, 0, 0)
      ensures Patch(Bump(c.overview, c.list, a, b), c.list, 0, 0) == Patch(c.overview, c.list, 0, 0)
    {
      PatchTwice(c.overview, c.list, a, b, 0, 0);
    }
  }

  /** What is left to show of an operation: it commutes with erasing, counts aside. */
  ghost predicate Commutes(c: Client, d: Client, id: ItemId, op: Op) {
    var after, other := Do(c, op), Do(d, op);
    && Without(after.detail.items, id) == other.detail.items
    && WithoutCreate(after.outbox, id) == other.outbox
    && after.undo == other.undo && after.online == other.online
    && Creates(after.outbox, id) == Creates(c.outbox, id)
    && (Has(c.detail.items, id) ==> Has(after.detail.items, id))
  }

  lemma AddCommutes(c: Client, id: ItemId, tempId: ItemId, payload: AddPayload, now: Time)
    requires Consistent(c) && id != tempId
    ensures Commutes(c, Erase(c, id), id, AddOp(tempId, payload, now))
  {
    UnseenErased(c, id, tempId);
    if Unseen(c, tempId) {
      var row := OptimisticRow(tempId, payload, c.me, now);
      WithoutAppend(c.detail.items, row, id);
      OutboxAppend(c.outbox, AddMutation(c.list, tempId, payload, false), id);
      AppendRow(c.detail.items, row);
    }
  }

  /** Folding a change into another create, or queueing it, commutes with erasing. */
  lemma SendingCommutes(outbox: seq<Mutation>, online: bool, id: ItemId, other: ItemId, change: Change, m: Mutation)
    requires id != other && !m.AddMutation?
    ensures Queued(WithoutCreate(outbox, id), other, online) <==> Queued(outbox, other, online)
    ensures WithoutCreate(FoldInto(outbox, other, online, change), id)
            == FoldInto(WithoutCreate(outbox, id), other, online, change)
    ensures WithoutCreate(outbox + [m], id) == WithoutCreate(outbox, id) + [m]
    ensures Creates(FoldInto(outbox, other, online, change), id) == Creates(outbox, id) == Creates(outbox + [m], id)
  {
    QueuedElsewhere(outbox, id, other, online);
    FoldErases(outbox, id, other, online, change);
    OutboxAppend(outbox, m, id);
  }

  lemma EditedRows(items: seq<Item>, id: ItemId, other: ItemId, body: EditBody)
    requires UniqueRows(items) && id != other
    ensures Without(EditRows(items, other, body), id) == EditRows(Without(items, id), other, body)
    ensures Has(EditRows(items, other, body), id) <==> Has(items, id)
    ensures Has(Without(items, id), other) <==> Has(items, other)
  {
    WithoutCounts(items, id, true);
    WithoutEditRows(items, id, other, body);
    EditRowsCounts(items, other, body, true);
    SameIds(items, EditRows(items, other, body));
  }

  lemma EditCommutes(c: Client, id: ItemId, other: ItemId, body: EditBody)
    requires UniqueRows(c.detail.items) && id != other
    ensures Commutes(c, Erase(c, id), id, EditOp(other, body))
  {
    EditedRows(c.detail.items, id, other, body);
    SendingCommutes(c.outbox, c.online, id, other, Edit(body), EditMutation(c.list, other, body));
    if Has(c.detail.items, other) {
      var d := Erase(c, id);
      assert Do(c, EditOp(other, body)) == EditItem(c, other, body);
      assert Do(d, EditOp(other, body)) == EditItem(d, other, body);
    }
  }

  lemma CheckedRows(items: seq<Item>, id: ItemId, other: ItemId, checked: bool, me: Option<User>, now: Time)
    requires UniqueRows(items) && id != other
    ensures Without(CheckRows(items, other, checked, me, now), id) == CheckRows(Without(items, id), other, checked, me, now)
    ensures Has(CheckRows(items, other, checked, me, now), id) <==> Has(items, id)
  {
    WithoutCheckRows(items, id, other, checked, me, now);
    CheckRowsIds(items, other, checked, me, now);
    SameIds(items, CheckRows(items, other, checked, me, now));
  }

  lemma ToggleCommutes(c: Client, id: ItemId, other: ItemId, now: Time)
    requires UniqueRows(c.detail.items) && id != other
    ensures Commutes(c, Erase(c, id), id, ToggleOp(other, now))
  {
    RowOfWithout(c.detail.items, id, other);
    var row := RowOf(c.detail.items, other);
    if row.Some? {
      var checked := !row.value.checked;
      CheckedRows(c.detail.items, id, other, checked, c.me, now);
      SendingCommutes(c.outbox, c.online, id, other, if checked then Check else Uncheck,
                      CheckMutation(c.list, other, checked));
      var d := Erase(c, id);
      assert Do(c, ToggleOp(other, now)) == SetChecked(c, other, checked, now);
      assert Do(d, ToggleOp(other, now)) == SetChecked(d, other, checked, now);
    }
  }

  lemma RemovedRows(items: seq<Item>, id: ItemId, other: ItemId)
    requires UniqueRows(items) && id != other
    ensures Without(Without(items, other), id) == Without(Without(items, id), other)
    ensures Has(Without(items, other), id) <==> Has(items, id)
  {
    WithoutSwaps(items, id, other);
    WithoutCounts(items, other, true);
  }

  lemma RemoveCommutes(c: Client, id: ItemId, other: ItemId)
    requires UniqueRows(c.detail.items) && id != other
    ensures Commutes(c, Erase(c, id), id, RemoveOp(other))
  {
    RowOfWithout(c.detail.items, id, other);
    RowOfFinds(c.detail.items, other);
    if RowOf(c.detail.items, other).Some? {
      RemovedRows(c.detail.items, id, other);
      QueuedElsewhere(c.outbox, id, other, c.online);
      CancelElsewhere(c.outbox, id, other, c.online);
      OutboxAppend(c.outbox, DeleteMutation(c.list, other), id);
      var d, row := Erase(c, id), RowOf(c.detail.items, other).value;
      assert Do(c, RemoveOp(other)) == RemoveItem(c, row);
      assert Do(d, RemoveOp(other)) == RemoveItem(d, row);
    }
  }

  lemma UndoCommutes(c: Client, id: ItemId, other: ItemId, tempId: ItemId, now: Time)
    requires Consistent(c) && id != tempId && id !in c.undo
    ensures Commutes(c, Erase(c, id), id, UndoOp(other, tempId, now))
  {
    UnseenErased(c, id, tempId);
    if other in c.undo && Unseen(c, tempId) {
      var row := c.undo[other];
      if other.Temp? {
        var taken := c.(undo := c.undo - {other});
        AddCommutes(taken, id, tempId, ReaddPayload(row), now);
        assert Unseen(taken, tempId);
        UnseenErased(taken, id, tempId);
        assert Erase(taken, id) == Erase(c, id).(undo := c.undo - {other});
      } else {
        WithoutAppend(c.detail.items, row, id);
        AppendRow(c.detail.items, row);
        OutboxAppend(c.outbox, RestoreMutation(c.list, row), id);
      }
    }
  }

  /** An operation on anything else does the same to the session without the item. */
  lemma EraseCommutes(c: Client, id: ItemId, op: Op)
    requires Pending(c, id) && !Changes(op, id) && LeavesAlone(op, id)
    ensures Pending(Do(c, op), id) && Erase(Do(c, op), id) == Do(Erase(c, id), op)
  {
    match op {
      case AddOp(tempId, payload, now) => AddCommutes(c, id, tempId, payload, now);
      case EditOp(other, body) => EditCommutes(c, id, other, body);
      case ToggleOp(other, now) => ToggleCommutes(c, id, other, now);
      case RemoveOp(other) => RemoveCommutes(c, id, other);
      case UndoOp(other, tempId, now) => UndoCommutes(c, id, other, tempId, now);
      case PauseOp(other) => PauseErases(c.outbox, id, other);
      case OnlineOp(online) =>
    }
    assert Commutes(c, Erase(c, id), id, op);
    var after, other := Erase(Do(c, op), id), Do(Erase(c, id), op);
    EraseIsConsistent(c, id);
    DoKeeps(c, op);
    DoKeeps(Erase(c, id), op);
    EraseIsConsistent(Do(c, op), id);
    OverviewKeepsOthers(c, op);
    OverviewKeepsOthers(Erase(c, id), op);
    PatchAway(c, id);
    PatchAway(Do(c, op), id);
    AlikeIsEqual(after, other);
  }

  lemma PatchAway(c: Client, id: ItemId)
    ensures Patch(Erase(c, id).overview, c.list, 0, 0) == Patch(c.overview, c.list, 0, 0)
  {
    var d := Erase(c, id).detail;
    PatchTwice(c.overview, c.list, d.open, d.checked, 0, 0);
  }

  /** While its create is queued, changing the item changes nothing else. */
  lemma ChangeIsErased(c: Client, id: ItemId, op: Op)
    requires Pending(c, id) && Changes(op, id) && Queued(c.outbox, id, c.online)
    ensures Pending(Do(c, op), id) && Erase(Do(c, op), id) == Erase(c, id)
  {
    var items := c.detail.items;
    DoKeeps(c, op);
    match op {
      case EditOp(_, body) =>
        WithoutEditRows(items, id, id, body);
        FoldErases(c.outbox, id, id, c.online, Edit(body));
        EditRowsCounts(items, id, body, true);
        SameIds(items, EditRows(items, id, body));
      case ToggleOp(_, now) =>
        RowOfFinds(items, id);
        var checked := !RowOf(items, id).value.checked;
        WithoutCheckRows(items, id, id, checked, c.me, now);
        FoldErases(c.outbox, id, id, c.online, if checked then Check else Uncheck);
        CheckRowsIds(items, id, checked, c.me, now);
        SameIds(items, CheckRows(items, id, checked, c.me, now));
    }
    var after := Do(c, op);
    assert Without(after.detail.items, id) == Without(items, id);
    assert WithoutCreate(after.outbox, id) == WithoutCreate(c.outbox, id);
    EraseIsConsistent(c, id);
    EraseIsConsistent(after, id);
    OverviewKeepsOthers(c, op);
    PatchAway(c, id);
    PatchAway(after, id);
    AlikeIsEqual(Erase(after, id), Erase(c, id));
  }

  lemma AddIsErased(c: Client, id: ItemId, payload: AddPayload, now: Time)
    requires Consistent(c) && Unseen(c, id)
    ensures Pending(AddItem(c, id, payload, now), id) && Erase(AddItem(c, id, payload, now), id) == c
  {
    var row := OptimisticRow(id, payload, c.me, now);
    var after := AddItem(c, id, payload, now);
    AddKeeps(c, id, payload, now);
    WithoutAbsent(c.detail.items, id);
    WithoutAppend(c.detail.items, row, id);
    AppendRow(c.detail.items, row);
    NoCreates(c.outbox, id);
    OutboxAppend(c.outbox, AddMutation(c.list, id, payload, false), id);
    EraseIsConsistent(after, id);
    OverviewKeepsOthers(c, AddOp(id, payload, now));
    PatchAway(after, id);
    AlikeIsEqual(Erase(after, id), c);
  }

  /** Removing the item while its create is queued is erasing it, but for the undo offer. */
  lemma RemoveErases(c: Client, id: ItemId)
    requires Pending(c, id) && Queued(c.outbox, id, c.online)
    ensures RowOf(c.detail.items, id).Some?
    ensures Do(c, RemoveOp(id)) == Erase(c, id).(undo := c.undo[id := RowOf(c.detail.items, id).value])
  {
    RowOfFinds(c.detail.items, id);
    var row := RowOf(c.detail.items, id).value;
    var after := Do(c, RemoveOp(id));
    CancelErases(c.outbox, id, c.online);
    RemoveKeeps(c, row);
    EraseIsConsistent(c, id);
    OverviewKeepsOthers(c, RemoveOp(id));
    PatchAway(c, id);
    AlikeIsEqual(after, Erase(c, id).(undo := after.undo));
  }

  // ---------------------------------------------------------------- the whole session

  lemma {:induction false} SessionErases(c: Client, id: ItemId, ops: seq<Op>)
    requires Pending(c, id) && StaysQueued(c, id, ops)
    requires forall i :: 0 <= i < |ops| ==> LeavesAlone(ops[i], id)
    ensures var end := DoAll(c, ops);
            Pending(end, id) && Queued(end.outbox, id, end.online) && Erase(end, id) == DoAll(Erase(c, id), OnOthers(ops, id))
    decreases ops
  {
    if ops == [] {
    } else {
      var next, rest := Do(c, ops[0]), ops[1..];
      assert forall i :: 0 <= i < |rest| ==> rest[i] == ops[i + 1];
      if Changes(ops[0], id) {
        ChangeIsErased(c, id, ops[0]);
      } else {
        EraseCommutes(c, id, ops[0]);
        assert ([ops[0]] + OnOthers(rest, id))[1..] == OnOthers(rest, id);
      }
      SessionErases(next, id, rest);
    }
  }

  lemma {:induction false} DoAllConcat(c: Client, ops: seq<Op>, more: seq<Op>)
    ensures DoAll(c, ops + more) == DoAll(DoAll(c, ops), more)
    decreases ops
  {
    if ops == [] {
      assert [] + more == more;
    } else {
      assert (ops + more)[1..] == ops[1..] + more;
      DoAllConcat(Do(c, ops[0]), ops[1..], more);
    }
  }

  lemma ScriptRuns(c: Client, first: Op, ops: seq<Op>, last: Op)
    ensures DoAll(c, [first] + ops + [last]) == Do(DoAll(Do(c, first), ops), last)
  {
    var script := [first] + ops + [last];
    assert script[0] == first && script[1..] == ops + [last];
    DoAllConcat(Do(c, first), ops, [last]);
    var end := DoAll(Do(c, first), ops);
    assert [last][0] == last && [last][1..] == [];
    assert DoAll(Do(end, last), []) == Do(end, last);
  }

  /**
   Adding an item, changing it any number of times and removing it while its create
   stays queued leaves the cached rows, the counts, the overview and the outbox as if
   it had never been added, whatever is done to other items in between. Only the
   offer to undo the removal remains.
   */
  lemma CancelledCreateLeavesNoTrace(c: Client, id: ItemId, payload: AddPayload, now: Time, ops: seq<Op>)
    requires Consistent(c) && Unseen(c, id)
    requires forall i :: 0 <= i < |ops| ==> LeavesAlone(ops[i], id)
    requires StaysQueued(AddItem(c, id, payload, now), id, ops)
    ensures var with := DoAll(c, [AddOp(id, payload, now)] + ops + [RemoveOp(id)]);
            var without := DoAll(c, OnOthers(ops, id));
            id in with.undo && with.(undo := with.undo - {id}) == without
  {
    var added := AddItem(c, id, payload, now);
    AddIsErased(c, id, payload, now);
    SessionErases(added, id, ops);
    var end := DoAll(added, ops);
    RemoveErases(end, id);
    ScriptRuns(c, AddOp(id, payload, now), ops, RemoveOp(id));
    assert Do(c, AddOp(id, payload, now)) == added;
    assert Do(end, RemoveOp(id)).undo - {id} == end.undo;
  }
}
