/**
 When a change folded into a queued create is overtaken by one that was queued after
 the create (frontend/src/queries.ts): folding puts the later change before the earlier
 one, and the sent outbox then has the earlier value where the screen shows the later.
 */
module LateFolds {

  import opened Results
  import opened Fold
  import opened ClientCache
  import opened Sync
  import ListRules
  import QueryClients
  import Text

  /** Two edits give no field different values, as the server stores them. */
  predicate Agree(a: EditBody, b: EditBody) {
    && (a.name.Some? && b.name.Some? ==> Text.TrimSpace(a.name.value) == Text.TrimSpace(b.name.value))
    && (a.quantity.Some? && b.quantity.Some? ==> a.quantity == b.quantity)
    && (a.unit.Some? && b.unit.Some? ==> a.unit == b.unit)
    && (a.note.Some? && b.note.Some? ==> ListRules.NormalizeNote(a.note.value) == ListRules.NormalizeNote(b.note.value))
  }

  /** What a change gives another value than the mutations queued after the create do. */
  predicate Clashes(ms: seq<Mutation>, change: Change) {
    if change.Edit? then !Agree(Given(ms), change.body) else GivenCheck(ms).Some?
  }

  predicate IsChange(op: Op) {
    op.EditOp? || op.ToggleOp?
  }

  /** The change an edit or a toggle makes of a row, and its own mutation. */
  function ChangeOf(op: Op, r: Item): Change
    requires IsChange(op)
  {
    if op.EditOp? then Edit(op.body) else if r.checked then Uncheck else Check
  }

  function MutationOf(list: ListId, op: Op, r: Item): Mutation
    requires IsChange(op)
  {
    if op.EditOp? then EditMutation(list, op.id, op.body) else CheckMutation(list, op.id, !r.checked)
  }

  function MomentOf(w: World, op: Op): Time {
    if op.ToggleOp? then op.now else w.now
  }

  /** A change is folded into a create, and clashes with what is queued after that. */
  predicate Overtaken(c: Client, op: Op) {
    && IsChange(op) && op.id.Temp? && Queued(c.outbox, op.id, c.online)
    && var row := RowOf(c.detail.items, op.id);
    row.Some? && Clashes(OnItem(c.outbox, op.id), ChangeOf(op, row.value))
  }

  predicate NothingOvertaken(c: Client, ops: seq<Op>)
    decreases ops
  {
    ops != [] ==> !Overtaken(c, ops[0]) && NothingOvertaken(Do(c, ops[0]), ops[1..])
  }

  // ---------------------------------------------------------------- one operation

  /** The item, if it is shown, will be on the server as it is shown. */
  predicate StandsAt(c: Client, id: ItemId) {
    id.Temp? && RowOf(c.detail.items, id).Some? ==> GivenIsShown(RowOf(c.detail.items, id).value, OnItem(c.outbox, id))
  }

  ghost predicate AllStand(c: Client) {
    forall id :: StandsAt(c, id)
  }

  lemma ElsewhereStands(c: Client, d: Client, id: ItemId)
    requires SameElsewhere(c, d, id) && AllStand(c)
    ensures AllStand(d) <==> StandsAt(d, id)
  {
    forall other | other != id ensures StandsAt(d, other) {
      assert StandsAt(c, other);
    }
  }

  lemma FoldStands(w: World, r: Item, change: Change, at: Time, ms: seq<Mutation>, folded: seq<Mutation>)
    requires GivenIsShown(r, ms) && (!change.Edit? ==> change.Check? == !r.checked)
    requires Given(folded) == Given(ms) && GivenCheck(folded) == GivenCheck(ms)
    ensures GivenIsShown(ChangedRow(w, r, change, at), folded) <==> !Clashes(ms, change)
  {
  }

  lemma QueueStands(w: World, r: Item, change: Change, at: Time, ms: seq<Mutation>, m: Mutation)
    requires GivenIsShown(r, ms) && IsQueuedAs(change, m)
    ensures GivenIsShown(ChangedRow(w, r, change, at), ms + [m])
  {
    assert (ms + [m])[..|ms|] == ms;
  }

  lemma ChangeStands(w: World, c: Client, d: Client, id: ItemId, change: Change, m: Mutation, at: Time)
    requires InSync(w, c) && IsChanged(w, c, d, id, change, m, at) && StandsAt(c, id)
    ensures StandsAt(d, id) <==> !(id.Temp? && Queued(c.outbox, id, c.online) && Clashes(OnItem(c.outbox, id), change))
  {
    ShownIsKnown(w, c, id);
    assert ItemInSync(w, c, id);
    if id.Temp? {
      var ms, r := OnItem(c.outbox, id), RowOf(c.detail.items, id).value;
      ChangeOnItem(c, id, change, m);
      if Queued(c.outbox, id, c.online) {
        FoldKeepsTheRest(ms, change);
        FoldStands(w, r, change, at, ms, FoldCreate(ms, change));
      } else {
        QueueStands(w, r, change, at, ms, m);
      }
    }
  }

  lemma DoChanges(w: World, c: Client, op: Op, r: Item)
    requires InSync(w, c) && IsChange(op) && Entered(w, op) && RowOf(c.detail.items, op.id) == Some(r)
    ensures InSync(w, Do(c, op)) && SameElsewhere(c, Do(c, op), op.id)
    ensures IsChanged(w, c, Do(c, op), op.id, ChangeOf(op, r), MutationOf(c.list, op, r), MomentOf(w, op))
  {
    RowOfFinds(c.detail.items, op.id);
    if op.EditOp? {
      EditSyncs(w, c, op.id, op.body);
    } else {
      ToggleSyncs(w, c, op.id, op.now);
    }
  }

  lemma AddStands(w: World, c: Client, id: ItemId, payload: AddPayload, at: Time)
    requires InSync(w, c) && Known(w, id) && Unseen(c, id) && AcceptedAdd(payload) && AllStand(c)
    ensures AllStand(AddItem(c, id, payload, at))
  {
    AddSyncs(w, c, id, payload, at);
    ElsewhereStands(c, AddItem(c, id, payload, at), id);
  }

  lemma UndoStands(w: World, c: Client, id: ItemId, tempId: ItemId, at: Time)
    requires InSync(w, c) && id in c.undo && Unseen(c, tempId) && Known(w, tempId) && AllStand(c)
    ensures AllStand(UndoRemoval(c, c.undo[id], tempId, at))
  {
    assert c.undo[id].id == id;
    if id.Temp? {
      var taken := c.(undo := c.undo - {id});
      TakenSyncs(w, c, id);
      ReaddIsAccepted(c.undo[id]);
      assert forall other :: StandsAt(c, other) ==> StandsAt(taken, other);
      AddStands(w, taken, tempId, ReaddPayload(c.undo[id]), at);
    } else {
      RestoreLeavesOthers(c, id);
      ElsewhereStands(c, Restored(c, id), id);
    }
  }

  lemma PauseStands(c: Client, id: ItemId)
    requires AllStand(c)
    ensures AllStand(c.(outbox := PauseCreate(c.outbox, id)))
  {
    forall other ensures StandsAt(c.(outbox := PauseCreate(c.outbox, id)), other) {
      PauseOnItem(c.outbox, id, other);
      assert StandsAt(c, other);
    }
  }

  lemma ChangeStays(w: World, c: Client, op: Op)
    requires InSync(w, c) && IsChange(op) && Entered(w, op) && AllStand(c)
    ensures AllStand(Do(c, op)) <==> !Overtaken(c, op)
  {
    var row, d := RowOf(c.detail.items, op.id), Do(c, op);
    if row.Some? {
      DoChanges(w, c, op, row.value);
      ElsewhereStands(c, d, op.id);
      ChangeStands(w, c, d, op.id, ChangeOf(op, row.value), MutationOf(c.list, op, row.value), MomentOf(w, op));
    } else {
      RowOfFinds(c.detail.items, op.id);
    }
  }

  /**
   While the server is to have every item as it is shown, an operation keeps it so exactly
   when it folds no change past a mutation that gives the same field another value.
   */
  lemma DoStands(w: World, c: Client, op: Op)
    requires InSync(w, c) && Entered(w, op) && AllStand(c)
    ensures AllStand(Do(c, op)) <==> !Overtaken(c, op)
  {
    match op {
      case AddOp(tempId, payload, at) =>
        if Unseen(c, tempId) {
          AddStands(w, c, tempId, payload, at);
        }
      case EditOp(_, _) => ChangeStays(w, c, op);
      case ToggleOp(_, _) => ChangeStays(w, c, op);
      case RemoveOp(id) =>
        if RowOf(c.detail.items, id).Some? {
          RemoveSyncs(w, c, id);
          ElsewhereStands(c, Do(c, op), id);
        }
      case UndoOp(id, tempId, at) =>
        if id in c.undo && Unseen(c, tempId) {
          UndoStands(w, c, id, tempId, at);
        }
      case PauseOp(id) => PauseStands(c, id);
      case OnlineOp(online) =>
        assert forall id :: StandsAt(c, id) ==> StandsAt(Do(c, op), id);
    }
  }

  // ---------------------------------------------------------------- sessions

  lemma {:induction false} NothingOvertakenStands(w: World, c: Client, ops: seq<Op>)
    requires InSync(w, c) && AllStand(c) && NothingOvertaken(c, ops)
    requires forall i :: 0 <= i < |ops| ==> Entered(w, ops[i])
    ensures AllStand(DoAll(c, ops))
    decreases ops
  {
    if ops == [] {
    } else {
      var rest := ops[1..];
      assert forall i :: 0 <= i < |rest| ==> rest[i] == ops[i + 1];
      DoSyncs(w, c, ops[0]);
      DoStands(w, c, ops[0]);
      NothingOvertakenStands(w, Do(c, ops[0]), rest);
    }
  }

  lemma LoadedStands(w: World, c: Client)
    requires FreshlyLoaded(w, c)
    ensures AllStand(c)
  {
    forall id ensures StandsAt(c, id) {
      assert OnItem(c.outbox, id) == [];
    }
  }

  /**
   In a session in which nothing is overtaken, the server ends up with every item shown,
   as it is shown, trimming and moments aside.
   */
  lemma NothingOvertakenSyncs(w: World, c: Client, ops: seq<Op>)
    requires FreshlyLoaded(w, c) && NothingOvertaken(c, ops)
    requires forall i :: 0 <= i < |ops| ==> Entered(w, ops[i])
    ensures var d := DoAll(c, ops);
            && KnownMutations(w, d.outbox) && ScreenArrives(w, d)
            && var t := Sent(w, d.outbox);
            forall r :: r in d.detail.items ==> Known(w, r.id) && ServerId(w, r.id) in t.items && Shows(t.items[ServerId(w, r.id)], r)
  {
    var d := DoAll(c, ops);
    LoadedStands(w, c);
    LoadedIsInSync(w, c);
    NothingOvertakenStands(w, c, ops);
    SessionSyncs(w, c, ops);
    ScreenIsServer(w, d);
    forall r | r in d.detail.items ensures Stands(d, r) {
      RowOfUnique(d.detail.items, r);
      assert StandsAt(d, r.id);
    }
  }

  // ---------------------------------------------------------------- offline sessions

  predicate StaysOffline(ops: seq<Op>) {
    forall i :: 0 <= i < |ops| ==> ops[i] != OnlineOp(true)
  }

  /** Nothing but creates is queued for temporary ids. */
  ghost predicate OnlyCreates(outbox: seq<Mutation>) {
    forall m :: m in outbox ==> About(m).Temp? ==> m.AddMutation?
  }

  lemma OnlyCreatesGiveNothing(outbox: seq<Mutation>, id: ItemId)
    requires OnlyCreates(outbox) && id.Temp?
    ensures Given(OnItem(outbox, id)) == NoEdit() && GivenCheck(OnItem(outbox, id)) == None
  {
    var ms := OnItem(outbox, id);
    if ms != [] {
      var i := OnItemCame(outbox, id, |ms| - 1);
      assert outbox[i] in outbox;
    }
  }

  /** Offline, whatever is shown under a temporary id has its create queued. */
  lemma ShownIsQueued(w: World, c: Client, id: ItemId)
    requires InSync(w, c) && id.Temp? && RowOf(c.detail.items, id).Some?
    ensures Queued(c.outbox, id, false)
  {
    ShownIsKnown(w, c, id);
    assert ItemInSync(w, c, id);
    var ms := OnItem(c.outbox, id);
    if NoCreate(ms) {
      NoCreateMakesNothing(ms);
    } else {
      var k :| 0 <= k < |ms| && ms[k].AddMutation?;
      var i := OnItemCame(c.outbox, id, k);
      assert IsQueuedCreate(c.outbox[i], id, false);
    }
  }

  lemma ChangeKeepsOnlyCreates(w: World, c: Client, op: Op)
    requires InSync(w, c) && IsChange(op) && Entered(w, op) && !c.online && OnlyCreates(c.outbox)
    ensures OnlyCreates(Do(c, op).outbox)
  {
    var row := RowOf(c.detail.items, op.id);
    if row.Some? {
      DoChanges(w, c, op, row.value);
      if op.id.Temp? {
        ShownIsQueued(w, c, op.id);
        var at := FirstQueued(c.outbox, op.id, false);
        QueryClients.FoldAt(c.outbox, op.id, false, ChangeOf(op, row.value), at);
      }
    } else {
      RowOfFinds(c.detail.items, op.id);
    }
  }

  lemma DeletedOnlyCreates(w: World, c: Client, id: ItemId)
    requires InSync(w, c) && !c.online && OnlyCreates(c.outbox) && RowOf(c.detail.items, id).Some?
    ensures OnlyCreates(DeleteQueued(c, id).outbox)
  {
    if id.Temp? {
      ShownIsQueued(w, c, id);
      var at := FirstQueued(c.outbox, id, false);
      QueryClients.CancelAt(c.outbox, id, false, at);
    }
  }

  lemma {:induction false} PausedOnlyCreates(outbox: seq<Mutation>, id: ItemId)
    requires OnlyCreates(outbox)
    ensures OnlyCreates(PauseCreate(outbox, id))
    decreases outbox
  {
    if outbox == [] {
    } else {
      var paused := PauseCreate(outbox, id);
      assert OnlyCreates(outbox[1..]);
      PausedOnlyCreates(outbox[1..], id);
      assert outbox[0] in outbox && paused == [paused[0]] + PauseCreate(outbox[1..], id);
    }
  }

  /** Offline, what is done to an item the server does not have is folded into its create. */
  lemma OfflineKeepsOnlyCreates(w: World, c: Client, op: Op)
    requires InSync(w, c) && Entered(w, op) && !c.online && OnlyCreates(c.outbox)
    ensures OnlyCreates(Do(c, op).outbox)
  {
    match op {
      case EditOp(_, _) => ChangeKeepsOnlyCreates(w, c, op);
      case ToggleOp(_, _) => ChangeKeepsOnlyCreates(w, c, op);
      case RemoveOp(id) =>
        if RowOf(c.detail.items, id).Some? {
          RemoveElsewhere(w, c, id);
          DeletedOnlyCreates(w, c, id);
        }
      case PauseOp(id) => PausedOnlyCreates(c.outbox, id);
      case _ =>
    }
  }

  lemma {:induction false} OfflineNothingOvertaken(w: World, c: Client, ops: seq<Op>)
    requires InSync(w, c) && !c.online && OnlyCreates(c.outbox) && StaysOffline(ops)
    requires forall i :: 0 <= i < |ops| ==> Entered(w, ops[i])
    ensures NothingOvertaken(c, ops)
    decreases ops
  {
    if ops == [] {
    } else {
      var op, rest := ops[0], ops[1..];
      assert forall i :: 0 <= i < |rest| ==> rest[i] == ops[i + 1];
      if IsChange(op) && op.id.Temp? {
        OnlyCreatesGiveNothing(c.outbox, op.id);
      }
      DoSyncs(w, c, op);
      OfflineKeepsOnlyCreates(w, c, op);
      OfflineNothingOvertaken(w, Do(c, op), rest);
    }
  }

  /** A session spent offline from start to end overtakes nothing, so its outbox is always right. */
  lemma OfflineSessionSyncs(w: World, c: Client, ops: seq<Op>)
    requires FreshlyLoaded(w, c) && !c.online && StaysOffline(ops)
    requires forall i :: 0 <= i < |ops| ==> Entered(w, ops[i])
    ensures NothingOvertaken(c, ops)
    ensures var d := DoAll(c, ops);
            && KnownMutations(w, d.outbox) && ScreenArrives(w, d)
            && var t := Sent(w, d.outbox);
            forall r :: r in d.detail.items ==> Known(w, r.id) && ServerId(w, r.id) in t.items && Shows(t.items[ServerId(w, r.id)], r)
  {
    LoadedIsInSync(w, c);
    OfflineNothingOvertaken(w, c, ops);
    NothingOvertakenSyncs(w, c, ops);
  }

  // ---------------------------------------------------------------- going offline in between

  /** An item's create is under way, one change has been queued behind it, and the connection is gone. */
  ghost predicate UnderWay(w: World, c: Client, id: ItemId, early: Change, r: Item) {
    && InSync(w, c) && AllStand(c) && !c.online && id.Temp? && Known(w, id)
    && RowOf(c.detail.items, id) == Some(r)
    && Given(OnItem(c.outbox, id)) == (if early.Edit? then early.body else NoEdit())
    && GivenCheck(OnItem(c.outbox, id)) == (if early.Edit? then None else Some(early.Check?))
  }

  /** An item is added and changed, and then the connection goes. */
  lemma GoneOffline(w: World, c: Client, id: ItemId, p: AddPayload, op: Op, at: Time)
    requires FreshlyLoaded(w, c) && c.online && id.Temp? && Known(w, id) && Unseen(c, id) && AcceptedAdd(p)
    requires IsChange(op) && op.id == id && Entered(w, op)
    ensures var r := OptimisticRow(id, p, c.me, at);
            UnderWay(w, Do(Do(Do(c, AddOp(id, p, at)), op), OnlineOp(false)), id, ChangeOf(op, r),
                     ChangedRow(w, r, ChangeOf(op, r), MomentOf(w, op)))
  {
    LoadedIsInSync(w, c);
    LoadedStands(w, c);
    AddStands(w, c, id, p, at);
    AddSyncs(w, c, id, p, at);
    AddElsewhere(w, c, id, p, at);
    var c1, r := AddItem(c, id, p, at), OptimisticRow(id, p, c.me, at);
    assert c1.outbox == [AddMutation(c.list, id, p, false)] && !Queued(c1.outbox, id, true);
    assert ItemInSync(w, c1, id);
    DoChanges(w, c1, op, r);
    DoStands(w, c1, op);
    var c2, ms, m := Do(c1, op), OnItem(c1.outbox, id), MutationOf(c1.list, op, r);
    ChangeOnItem(c1, id, ChangeOf(op, r), m);
    assert (ms + [m])[..|ms|] == ms;
    OnlineSyncs(w, c2, false);
    DoStands(w, c2, OnlineOp(false));
  }

  /** A later change is folded past the one that is queued. */
  lemma ChangeComesLate(w: World, c: Client, id: ItemId, early: Change, r: Item, op: Op)
    requires UnderWay(w, c, id, early, r) && IsChange(op) && op.id == id && Entered(w, op)
    ensures var d := Do(c, op);
            && InSync(w, d) && RowOf(d.detail.items, id) == Some(ChangedRow(w, r, ChangeOf(op, r), MomentOf(w, op)))
            && GivenCheck(OnItem(d.outbox, id)) == GivenCheck(OnItem(c.outbox, id))
            && (StandsAt(d, id) <==> !Clashes(OnItem(c.outbox, id), ChangeOf(op, r)))
  {
    var d, change, m := Do(c, op), ChangeOf(op, r), MutationOf(c.list, op, r);
    DoChanges(w, c, op, r);
    ShownIsQueued(w, c, id);
    assert StandsAt(c, id) && ItemInSync(w, c, id);
    ChangeStands(w, c, d, id, change, m, MomentOf(w, op));
    ChangeOnItem(c, id, change, m);
    FoldKeepsTheRest(OnItem(c.outbox, id), change);
  }

  lemma FourOps(c: Client, ops: seq<Op>)
    requires |ops| == 4
    ensures DoAll(c, ops) == Do(Do(Do(Do(c, ops[0]), ops[1]), ops[2]), ops[3])
  {
    assert ops[1..] == [ops[1], ops[2], ops[3]] && ops[1..][1..] == [ops[2], ops[3]] && ops[1..][1..][1..] == [ops[3]];
    var c1 := Do(c, ops[0]);
    var c2 := Do(c1, ops[1]);
    var c3 := Do(c2, ops[2]);
    var c4 := Do(c3, ops[3]);
    assert DoAll(c4, []) == c4;
    assert DoAll(c3, [ops[3]]) == c4;
    assert DoAll(c2, [ops[2], ops[3]]) == c4;
    assert DoAll(c1, [ops[1], ops[2], ops[3]]) == c4;
  }

  /**
   Going offline between two edits of an item whose create is still under way lets the
   first edit overtake the second one. The item the server ends up with is the one shown
   exactly when the two give no field different values.
   */
  lemma LateFoldIsOvertaken(w: World, c: Client, id: ItemId, p: AddPayload, early: EditBody, late: EditBody, at: Time)
    requires FreshlyLoaded(w, c) && c.online && id.Temp? && Known(w, id) && Unseen(c, id)
    requires AcceptedAdd(p) && AcceptedEdit(early) && AcceptedEdit(late)
    ensures var d := DoAll(c, [AddOp(id, p, at), EditOp(id, early), OnlineOp(false), EditOp(id, late)]);
            var row, shown := Played(w, d.outbox, id), RowOf(d.detail.items, id);
            OnList(w, row) && shown.Some? && (Shows(row.value, shown.value) <==> Agree(early, late))
  {
    var ops := [AddOp(id, p, at), EditOp(id, early), OnlineOp(false), EditOp(id, late)];
    var c3, r := Do(Do(Do(c, ops[0]), ops[1]), ops[2]), EditedRow(OptimisticRow(id, p, c.me, at), early);
    FourOps(c, ops);
    GoneOffline(w, c, id, p, ops[1], at);
    ChangeComesLate(w, c3, id, Edit(early), r, ops[3]);
    ItemArrives(w, Do(c3, ops[3]), id);
  }

  /**
   And between two toggles of it, the first one always overtakes the second: the server
   ends up with the item checked exactly when the screen shows it open.
   */
  lemma LateToggleIsOvertaken(w: World, c: Client, id: ItemId, p: AddPayload, at: Time, first: Time, second: Time)
    requires FreshlyLoaded(w, c) && c.online && id.Temp? && Known(w, id) && Unseen(c, id) && AcceptedAdd(p)
    ensures var d := DoAll(c, [AddOp(id, p, at), ToggleOp(id, first), OnlineOp(false), ToggleOp(id, second)]);
            var row, shown := Played(w, d.outbox, id), RowOf(d.detail.items, id);
            && OnList(w, row) && shown.Some? && shown.value.checked == (p.checked == Some(true))
            && row.value.checked == !shown.value.checked
  {
    var ops := [AddOp(id, p, at), ToggleOp(id, first), OnlineOp(false), ToggleOp(id, second)];
    var c3, r := Do(Do(Do(c, ops[0]), ops[1]), ops[2]), OptimisticRow(id, p, c.me, at);
    FourOps(c, ops);
    GoneOffline(w, c, id, p, ops[1], at);
    ChangeComesLate(w, c3, id, ChangeOf(ops[1], r), ChangedRow(w, r, ChangeOf(ops[1], r), first), ops[3]);
    ItemArrives(w, Do(c3, ops[3]), id);
  }
}
