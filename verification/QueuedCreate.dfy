/**
 What a queued create will send (frontend/src/queries.ts): through any session it
 carries the payload it was made with and every change made to its item since, so the
 server stores what it would have stored had it been told of them one by one.
 */
module QueuedCreate {

  import opened Results
  import opened Fold
  import opened ClientCache
  import opened CancelledCreate
  import Store

  /** The payload of the first create for the id. */
  function PayloadOf(outbox: seq<Mutation>, id: ItemId): Option<AddPayload> {
    if outbox == [] then None
    else if IsCreate(outbox[0], id) then Some(outbox[0].payload)
    else PayloadOf(outbox[1..], id)
  }

  /** A change to the item, as a fold sees it. */
  function ChangeMade(c: Client, id: ItemId, op: Op): seq<Change> {
    if !Changes(op, id) then []
    else if op.EditOp? then [Edit(op.body)]
    else
      var row := RowOf(c.detail.items, id);
      if row.None? then [] else [if row.value.checked then Uncheck else Check]
  }

  function ChangesMade(c: Client, id: ItemId, ops: seq<Op>): seq<Change>
    decreases ops
  {
    if ops == [] then [] else ChangeMade(c, id, ops[0]) + ChangesMade(Do(c, ops[0]), id, ops[1..])
  }

  lemma {:induction false} PayloadAppend(outbox: seq<Mutation>, m: Mutation, id: ItemId)
    requires !IsCreate(m, id)
    ensures PayloadOf(outbox + [m], id) == PayloadOf(outbox, id)
    decreases outbox
  {
    if outbox == [] {
      assert [] + [m] == [m] && [m][1..] == [];
    } else {
      assert (outbox + [m])[1..] == outbox[1..] + [m];
      PayloadAppend(outbox[1..], m, id);
    }
  }

  lemma {:induction false} PayloadAdded(outbox: seq<Mutation>, m: Mutation, id: ItemId)
    requires IsCreate(m, id) && Creates(outbox, id) == 0
    ensures PayloadOf(outbox + [m], id) == Some(m.payload)
    decreases outbox
  {
    if outbox == [] {
      assert [] + [m] == [m];
    } else {
      assert (outbox + [m])[1..] == outbox[1..] + [m];
      PayloadAdded(outbox[1..], m, id);
    }
  }

  /** A fold reaches the payload of its own create and of no other. */
  lemma {:induction false} PayloadFolded(outbox: seq<Mutation>, id: ItemId, of: ItemId, online: bool, change: Change)
    requires Creates(outbox, id) == 1 && (of == id ==> Queued(outbox, id, online))
    ensures PayloadOf(outbox, id).Some?
    ensures PayloadOf(FoldInto(outbox, of, online, change), id)
            == if of == id then Some(Fold.Merge(PayloadOf(outbox, id).value, change)) else PayloadOf(outbox, id)
    decreases outbox
  {
    var folded := FoldInto(outbox, of, online, change);
    if IsCreate(outbox[0], id) {
      if of == id {
        OnlyCreateIsQueued(outbox, id, online);
      }
    } else {
      if of == id {
        var i :| 0 <= i < |outbox| && IsQueuedCreate(outbox[i], id, online);
        assert outbox[1..][i - 1] == outbox[i];
      }
      PayloadFolded(outbox[1..], id, of, online, change);
      assert folded[1..] == outbox[1..] || folded[1..] == FoldInto(outbox[1..], of, online, change);
    }
  }

  lemma OnlyCreateIsQueued(outbox: seq<Mutation>, id: ItemId, online: bool)
    requires Creates(outbox, id) == 1 && Queued(outbox, id, online) && IsCreate(outbox[0], id)
    ensures IsQueuedCreate(outbox[0], id, online)
  {
    NoneLeft(outbox[1..], id);
    var i :| 0 <= i < |outbox| && IsQueuedCreate(outbox[i], id, online);
    if i > 0 {
      assert outbox[i] in outbox[1..];
    }
  }

  lemma {:induction false} PayloadCancelled(outbox: seq<Mutation>, id: ItemId, other: ItemId, online: bool)
    requires id != other
    ensures PayloadOf(Cancel(outbox, other, online), id) == PayloadOf(outbox, id)
    decreases outbox
  {
    if outbox == [] {
    } else {
      PayloadCancelled(outbox[1..], id, other, online);
      if !IsQueuedCreate(outbox[0], other, online) {
        assert Cancel(outbox, other, online)[1..] == Cancel(outbox[1..], other, online);
      }
    }
  }

  lemma {:induction false} PayloadPaused(outbox: seq<Mutation>, id: ItemId, of: ItemId)
    ensures PayloadOf(PauseCreate(outbox, of), id) == PayloadOf(outbox, id)
    decreases outbox
  {
    if outbox == [] {
    } else {
      PayloadPaused(outbox[1..], id, of);
      assert PauseCreate(outbox, of)[1..] == PauseCreate(outbox[1..], of);
    }
  }

  // ---------------------------------------------------------------- one operation

  lemma OthersLeaveThePayload(c: Client, id: ItemId, op: Op)
    requires Pending(c, id) && !Changes(op, id) && LeavesAlone(op, id)
    ensures PayloadOf(Do(c, op).outbox, id) == PayloadOf(c.outbox, id)
  {
    var outbox, after := c.outbox, Do(c, op).outbox;
    match op {
      case AddOp(tempId, payload, _) => PayloadAppend(outbox, AddMutation(c.list, tempId, payload, false), id);
      case EditOp(other, body) =>
        PayloadFolded(outbox, id, other, c.online, Edit(body));
        PayloadAppend(outbox, EditMutation(c.list, other, body), id);
      case ToggleOp(other, now) => ToggleLeavesThePayload(c, id, other, now);
      case RemoveOp(other) =>
        RowOfFinds(c.detail.items, other);
        PayloadCancelled(outbox, id, other, c.online);
        PayloadAppend(outbox, DeleteMutation(c.list, other), id);
      case UndoOp(other, tempId, _) =>
        if other in c.undo {
          PayloadAppend(outbox, AddMutation(c.list, tempId, ReaddPayload(c.undo[other]), false), id);
          PayloadAppend(outbox, RestoreMutation(c.list, c.undo[other]), id);
        }
      case PauseOp(other) => PayloadPaused(outbox, id, other);
      case OnlineOp(_) =>
    }
  }

  lemma ToggleLeavesThePayload(c: Client, id: ItemId, other: ItemId, now: Time)
    requires Pending(c, id) && id != other
    ensures PayloadOf(Do(c, ToggleOp(other, now)).outbox, id) == PayloadOf(c.outbox, id)
  {
    var row := RowOf(c.detail.items, other);
    if row.Some? {
      var checked := !row.value.checked;
      assert Do(c, ToggleOp(other, now)) == ClientCache.SetChecked(c, other, checked, now);
      PayloadFolded(c.outbox, id, other, c.online, if checked then Check else Uncheck);
      PayloadAppend(c.outbox, CheckMutation(c.list, other, checked), id);
    }
  }

  lemma ChangeReachesThePayload(c: Client, id: ItemId, op: Op)
    requires Pending(c, id) && Changes(op, id) && Queued(c.outbox, id, c.online)
    ensures PayloadOf(c.outbox, id).Some? && |ChangeMade(c, id, op)| == 1
    ensures PayloadOf(Do(c, op).outbox, id)
            == Some(Fold.Merge(PayloadOf(c.outbox, id).value, ChangeMade(c, id, op)[0]))
  {
    RowOfFinds(c.detail.items, id);
    match op {
      case EditOp(_, body) => PayloadFolded(c.outbox, id, id, c.online, Edit(body));
      case ToggleOp(_, now) =>
        var checked := !RowOf(c.detail.items, id).value.checked;
        assert Do(c, op) == ClientCache.SetChecked(c, id, checked, now);
        PayloadFolded(c.outbox, id, id, c.online, if checked then Check else Uncheck);
    }
  }

  // ---------------------------------------------------------------- the session

  lemma {:induction false} FoldAllConcat(p: AddPayload, changes: seq<Change>, more: seq<Change>)
    ensures FoldAll(p, changes + more) == FoldAll(FoldAll(p, changes), more)
    decreases more
  {
    if more == [] {
      assert changes + more == changes;
    } else {
      var last := |more| - 1;
      assert (changes + more)[..|changes + more| - 1] == changes + more[..last];
      FoldAllConcat(p, changes, more[..last]);
    }
  }

  lemma {:induction false} SessionFolds(c: Client, id: ItemId, ops: seq<Op>)
    requires Pending(c, id) && StaysQueued(c, id, ops)
    requires forall i :: 0 <= i < |ops| ==> LeavesAlone(ops[i], id)
    requires PayloadOf(c.outbox, id).Some?
    ensures PayloadOf(DoAll(c, ops).outbox, id)
            == Some(FoldAll(PayloadOf(c.outbox, id).value, ChangesMade(c, id, ops)))
    decreases ops
  {
    if ops == [] {
    } else {
      var next, rest, made := Do(c, ops[0]), ops[1..], ChangeMade(c, id, ops[0]);
      var p := PayloadOf(c.outbox, id).value;
      assert forall i :: 0 <= i < |rest| ==> rest[i] == ops[i + 1];
      if Changes(ops[0], id) {
        ChangeIsErased(c, id, ops[0]);
        ChangeReachesThePayload(c, id, ops[0]);
        assert made[..0] == [] && FoldAll(p, made) == Fold.Merge(p, made[0]);
      } else {
        EraseCommutes(c, id, ops[0]);
        OthersLeaveThePayload(c, id, ops[0]);
      }
      SessionFolds(next, id, rest);
      FoldAllConcat(p, made, ChangesMade(next, id, rest));
    }
  }

  /**
   Through any session in which the create stays queued whenever its item is changed,
   with any operations on other items in between, the create carries the original
   payload with every change folded in; and when it is sent, the item it stores is the
   one the server would have made of the original and of each change in turn.
   */
  lemma SentCreateTellsAll(
    c: Client, id: ItemId, payload: AddPayload, now: Time, ops: seq<Op>,
    t: Store.Tables, item: Store.Id, list: Store.Id, actor: User, times: seq<Time>, later: Time)
    requires Consistent(c) && Unseen(c, id) && StaysQueued(AddItem(c, id, payload, now), id, ops)
    requires forall i :: 0 <= i < |ops| ==> LeavesAlone(ops[i], id)
    requires var made := ChangesMade(AddItem(c, id, payload, now), id, ops);
             |times| == |made| && ValidAdd(payload) && forall i :: 0 <= i < |made| ==> ValidChange(made[i])
    requires list in t.lists && item !in t.items
    ensures var added := AddItem(c, id, payload, now);
            var made := ChangesMade(added, id, ops);
            var sent := PayloadOf(DoAll(added, ops).outbox, id);
            && sent == Some(FoldAll(payload, made)) && ValidAdd(sent.value)
            && var stored := Store.After(t, Store.AddItem(item, list, AddInput(sent.value), actor, later));
            var replayed := Replay(t, item, list, payload, made, actor, now, times);
            && Store.Live(stored, list, item) && Store.Live(replayed, list, item)
            && SameContent(stored.items[item], replayed.items[item])
  {
    var added := AddItem(c, id, payload, now);
    AddIsErased(c, id, payload, now);
    NoCreates(c.outbox, id);
    PayloadAdded(c.outbox, AddMutation(c.list, id, payload, false), id);
    SessionFolds(added, id, ops);
    FoldEquivalence(t, item, list, payload, ChangesMade(added, id, ops), actor, now, times, later);
  }
}
