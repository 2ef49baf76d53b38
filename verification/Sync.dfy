/**
 What sending the outbox makes of the server's tables (frontend/src/queries.ts,
 frontend/src/api.ts, lists/service.go): when the queued mutations of a session are sent
 in order, each temporary id standing for the id its create is given, the server ends up
 with the items the screen shows.

 The list is changed by nobody else meanwhile, and every request is answered.
 */
module Sync {

  import opened Results
  import opened Fold
  import opened ClientCache
  import ListRules
  import QueryClients
  import Text
  import Store

  type Row = Store.ItemRow

  /** `given` are the server's ids for the temporary ones; `now` is when requests arrive. */
  datatype World = World(t: Store.Tables, list: Store.Id, actor: User, now: Time, given: map<nat, Store.Id>)

  predicate Known(w: World, id: ItemId) {
    if id.Temp? then id.n in w.given else id.n in w.t.items
  }

  function ServerId(w: World, id: ItemId): Store.Id
    requires Known(w, id)
  {
    if id.Temp? then w.given[id.n] else id.n
  }

  /** New ids are new, and different from each other. */
  ghost predicate Proper(w: World) {
    && w.list in w.t.lists
    && (forall n :: n in w.given ==> w.given[n] !in w.t.items)
    && (forall n, m :: n in w.given && m in w.given && w.given[n] == w.given[m] ==> n == m)
  }

  /** The item a mutation is about. */
  function About(m: Mutation): ItemId {
    match m
    case AddMutation(_, tempId, _, _) => tempId
    case EditMutation(_, itemId, _) => itemId
    case CheckMutation(_, itemId, _) => itemId
    case DeleteMutation(_, itemId) => itemId
    case RestoreMutation(_, item) => item.id
  }

  ghost predicate KnownMutations(w: World, outbox: seq<Mutation>) {
    forall m :: m in outbox ==> Known(w, About(m))
  }

  // ---------------------------------------------------------------- the server's side

  ghost function CallOf(w: World, m: Mutation): Store.Call
    requires Known(w, About(m))
  {
    var id := ServerId(w, About(m));
    match m
    case AddMutation(_, _, payload, _) => Store.AddItem(id, w.list, AddInput(payload), w.actor, w.now)
    case EditMutation(_, _, body) => Store.UpdateItem(id, w.list, EditUpdate(body), w.now)
    case CheckMutation(_, _, checked) =>
      if checked then Store.CheckItem(id, w.list, w.actor, w.now) else Store.UncheckItem(id, w.list, w.now)
    case DeleteMutation(_, _) => Store.DeleteItem(id, w.list, w.now)
    case RestoreMutation(_, _) => Store.RestoreItem(id, w.list, w.now)
  }

  /** The tables after the mutations have been sent, the last one last. */
  ghost function Sent(w: World, outbox: seq<Mutation>): Store.Tables
    requires KnownMutations(w, outbox)
    decreases outbox
  {
    if outbox == [] then w.t
    else Store.After(Sent(w, outbox[..|outbox| - 1]), CallOf(w, outbox[|outbox| - 1]))
  }

  function RowIn(t: Store.Tables, id: Store.Id): Option<Row> {
    if id in t.items then Some(t.items[id]) else None
  }

  predicate OnList(w: World, row: Option<Row>) {
    row.Some? && row.value.listId == w.list && row.value.deletedAt.None?
  }

  /** What one mutation does to the row it is about. */
  function Play(w: World, row: Option<Row>, m: Mutation): Option<Row> {
    match m
    case AddMutation(_, _, payload, _) =>
      if row.None? && ValidAdd(payload) then Some(Created(payload, w.list, w.actor, w.now)) else row
    case EditMutation(_, _, body) =>
      if OnList(w, row) && ValidChange(Edit(body))
      then Some(Store.Patched(row.value, Store.CleanUpdate(EditUpdate(body)).value, w.now)) else row
    case CheckMutation(_, _, checked) =>
      if OnList(w, row) && row.value.checked != checked
      then Some(row.value.(checked := checked, checkedAt := if checked then Some(w.now) else None,
                           boughtBy := if checked then Some(w.actor) else None, updatedAt := w.now)) else row
    case DeleteMutation(_, _) =>
      if OnList(w, row) then Some(row.value.(deletedAt := Some(w.now), updatedAt := w.now)) else row
    case RestoreMutation(_, _) =>
      if row.Some? && row.value.listId == w.list
      then Some(row.value.(deletedAt := None, updatedAt := w.now)) else row
  }

  /** The mutations about an item, pauses aside. */
  function OnItem(outbox: seq<Mutation>, id: ItemId): seq<Mutation> {
    if outbox == [] then []
    else
      var m := outbox[|outbox| - 1];
      OnItem(outbox[..|outbox| - 1], id)
      + if About(m) == id then [if m.AddMutation? then m.(paused := false) else m] else []
  }

  function PlayAll(w: World, row: Option<Row>, ms: seq<Mutation>): Option<Row> {
    if ms == [] then row else Play(w, PlayAll(w, row, ms[..|ms| - 1]), ms[|ms| - 1])
  }

  /** An item's row once the outbox has been sent. */
  function Played(w: World, outbox: seq<Mutation>, id: ItemId): Option<Row>
    requires Known(w, id)
  {
    PlayAll(w, RowIn(w.t, ServerId(w, id)), OnItem(outbox, id))
  }

  /** A call leaves the lists, and every item but its own, alone. */
  predicate OnlyRow(t: Store.Tables, t': Store.Tables, id: Store.Id, row: Option<Row>) {
    && t'.lists == t.lists
    && t'.items == (if row.Some? then t.items[id := row.value] else t.items)
    && (row.None? ==> id !in t.items)
  }

  lemma DeletePlays(w: World, t: Store.Tables, m: Mutation)
    requires (m.DeleteMutation? || m.RestoreMutation?) && Known(w, About(m))
    ensures var id := ServerId(w, About(m)); OnlyRow(t, Store.After(t, CallOf(w, m)), id, Play(w, RowIn(t, id), m))
  {
    var id := ServerId(w, About(m));
    if id in t.items {
      assert t.items[id := t.items[id]] == t.items;
    }
  }

  lemma CallPlays(w: World, t: Store.Tables, m: Mutation)
    requires Known(w, About(m)) && w.list in t.lists
    ensures var (id, t') := (ServerId(w, About(m)), Store.After(t, CallOf(w, m)));
            && t'.lists == t.lists
            && RowIn(t', id) == Play(w, RowIn(t, id), m)
            && forall other :: other != id ==> RowIn(t', other) == RowIn(t, other)
  {
    if m.DeleteMutation? || m.RestoreMutation? {
      DeletePlays(w, t, m);
    }
  }

  /** Sending the outbox does to each item what the mutations about it do to its row, and nothing else. */
  lemma {:induction false} SentPlays(w: World, outbox: seq<Mutation>)
    requires Proper(w) && KnownMutations(w, outbox)
    ensures var t := Sent(w, outbox);
            && t.lists == w.t.lists
            && (forall id :: Known(w, id) ==> RowIn(t, ServerId(w, id)) == Played(w, outbox, id))
            && (forall other :: (forall id :: Known(w, id) ==> ServerId(w, id) != other) ==> RowIn(t, other) == RowIn(w.t, other))
    decreases outbox
  {
    if outbox == [] {
    } else {
      var n := |outbox| - 1;
      var m, t := outbox[n], Sent(w, outbox[..n]);
      SentPlays(w, outbox[..n]);
      CallPlays(w, t, m);
      forall id | Known(w, id) ensures RowIn(Sent(w, outbox), ServerId(w, id)) == Played(w, outbox, id) {
        if id == About(m) {
        } else {
          assert OnItem(outbox, id) == OnItem(outbox[..n], id);
        }
      }
    }
  }

  // ---------------------------------------------------------------- the outbox by item

  lemma OnItemAppend(outbox: seq<Mutation>, m: Mutation, id: ItemId)
    ensures OnItem(outbox + [m], id)
            == OnItem(outbox, id) + if About(m) == id then [if m.AddMutation? then m.(paused := false) else m] else []
  {
    assert (outbox + [m])[..|outbox|] == outbox;
  }

  lemma {:induction false} OnItemConcat(a: seq<Mutation>, b: seq<Mutation>, id: ItemId)
    ensures OnItem(a + b, id) == OnItem(a, id) + OnItem(b, id)
    decreases b
  {
    if b == [] {
      assert a + b == a;
    } else {
      var n := |b| - 1;
      assert (a + b)[..|a + b| - 1] == a + b[..n];
      OnItemConcat(a, b[..n], id);
      assert a + b == a + b[..n] + [b[n]] && b == b[..n] + [b[n]];
    }
  }

  lemma OnItemOne(m: Mutation, id: ItemId)
    ensures OnItem([m], id) == if About(m) == id then [if m.AddMutation? then m.(paused := false) else m] else []
  {
    assert [] + [m] == [m];
  }

  lemma OnItemHead(outbox: seq<Mutation>, id: ItemId)
    requires outbox != []
    ensures OnItem(outbox, id) == OnItem([outbox[0]], id) + OnItem(outbox[1..], id)
  {
    OnItemConcat([outbox[0]], outbox[1..], id);
    assert outbox == [outbox[0]] + outbox[1..];
  }

  lemma FirstQueued(outbox: seq<Mutation>, id: ItemId, online: bool) returns (at: nat)
    requires Queued(outbox, id, online)
    ensures QueryClients.IsFirstQueued(outbox, id, online, at)
  {
    at := 0;
    while !IsQueuedCreate(outbox[at], id, online)
      invariant at < |outbox| && forall i :: 0 <= i < at ==> !IsQueuedCreate(outbox[i], id, online)
      decreases |outbox| - at
    {
      at := at + 1;
    }
  }

  lemma OnItemAround(a: seq<Mutation>, m: Mutation, b: seq<Mutation>, id: ItemId)
    ensures OnItem(a + [m] + b, id)
            == OnItem(a, id) + (if About(m) == id then [if m.AddMutation? then m.(paused := false) else m] else []) + OnItem(b, id)
  {
    OnItemConcat(a + [m], b, id);
  }

  lemma SendableNext(ms: seq<Mutation>, m: Mutation)
    requires Sendable(ms) && AcceptedMutation(m) && (m.AddMutation? ==> NoCreate(ms))
    ensures Sendable(ms + [m])
  {
  }

  /** The one create queued for an item, with a change folded into it. */
  function FoldCreate(ms: seq<Mutation>, change: Change): seq<Mutation> {
    seq(|ms|, i requires 0 <= i < |ms| =>
      if ms[i].AddMutation? then ms[i].(payload := Fold.Merge(ms[i].payload, change)) else ms[i])
  }

  /** A fold touches the one item, and its create only. */
  lemma FoldOnItem(outbox: seq<Mutation>, id: ItemId, online: bool, change: Change, other: ItemId)
    requires Sendable(OnItem(outbox, id)) && Queued(outbox, id, online)
    ensures OnItem(FoldInto(outbox, id, online, change), other)
            == if other == id then FoldCreate(OnItem(outbox, id), change) else OnItem(outbox, other)
  {
    var at := FirstQueued(outbox, id, online);
    var a, m, b := outbox[..at], outbox[at], outbox[at + 1..];
    var folded := m.(payload := Fold.Merge(m.payload, change));
    QueryClients.FoldAt(outbox, id, online, change, at);
    assert outbox == a + [m] + b && FoldInto(outbox, id, online, change) == a + [folded] + b;
    OnItemAround(a, m, b, other);
    OnItemAround(a, folded, b, other);
    if other == id {
      OneCreate(OnItem(a, id), m.(paused := false), OnItem(b, id));
    }
  }

  lemma OneCreate(a: seq<Mutation>, m: Mutation, b: seq<Mutation>)
    requires m.AddMutation? && Sendable(a + [m] + b)
    ensures NoCreate(a + b) && Sendable(a + b)
    ensures forall change ::
              FoldCreate(a + [m] + b, change) == a + [m.(payload := Fold.Merge(m.payload, change))] + b
  {
    var ms := a + [m] + b;
    assert ms[|a|] == m;
    forall k | 0 <= k < |a| + |b| ensures !(a + b)[k].AddMutation? && AcceptedMutation((a + b)[k]) {
      assert (a + b)[k] == ms[if k < |a| then k else k + 1];
    }
  }

  /** Cancelling a create leaves the other items' mutations, and whatever else is queued for its own. */
  lemma CancelOnItem(outbox: seq<Mutation>, id: ItemId, online: bool, other: ItemId)
    requires Sendable(OnItem(outbox, id)) && Queued(outbox, id, online)
    ensures var ms := OnItem(Cancel(outbox, id, online), other);
            if other == id then NoCreate(ms) && Sendable(ms) else ms == OnItem(outbox, other)
  {
    var at := FirstQueued(outbox, id, online);
    var a, m, b := outbox[..at], outbox[at], outbox[at + 1..];
    QueryClients.CancelAt(outbox, id, online, at);
    assert outbox == a + [m] + b;
    OnItemAround(a, m, b, other);
    OnItemConcat(a, b, other);
    if other == id {
      OneCreate(OnItem(a, id), m.(paused := false), OnItem(b, id));
    }
  }

  lemma {:induction false} PauseOnItem(outbox: seq<Mutation>, id: ItemId, other: ItemId)
    ensures OnItem(PauseCreate(outbox, id), other) == OnItem(outbox, other)
    decreases outbox
  {
    if outbox == [] {
    } else {
      var paused := PauseCreate(outbox, id);
      assert paused[1..] == PauseCreate(outbox[1..], id);
      PauseOnItem(outbox[1..], id, other);
      OnItemHead(outbox, other);
      OnItemHead(paused, other);
      OnItemOne(outbox[0], other);
      OnItemOne(paused[0], other);
    }
  }

  // ---------------------------------------------------------------- behind a create

  predicate AcceptedMutation(m: Mutation) {
    match m
    case AddMutation(_, _, payload, _) => AcceptedAdd(payload)
    case EditMutation(_, _, body) => AcceptedEdit(body)
    case RestoreMutation(_, _) => false
    case _ => true
  }

  predicate NoCreate(ms: seq<Mutation>) {
    forall k :: 0 <= k < |ms| ==> !ms[k].AddMutation?
  }

  /** What is ever queued for a temporary id: acceptable mutations, one create among them at most. */
  predicate Sendable(ms: seq<Mutation>) {
    && (forall k :: 0 <= k < |ms| ==> AcceptedMutation(ms[k]))
    && (forall j, k :: 0 <= j < k < |ms| && ms[j].AddMutation? ==> !ms[k].AddMutation?)
  }

  function Payload(ms: seq<Mutation>): Option<AddPayload> {
    if ms == [] then None
    else
      var m := ms[|ms| - 1];
      if m.AddMutation? then Some(m.payload) else Payload(ms[..|ms| - 1])
  }

  /** The item is there once they are sent: created, and not deleted since. */
  predicate Made(ms: seq<Mutation>) {
    ms != []
    && var m := ms[|ms| - 1];
    m.AddMutation? || (!m.DeleteMutation? && Made(ms[..|ms| - 1]))
  }

  /** The last value that the mutations queued after the create give for each field. */
  function Given(ms: seq<Mutation>): EditBody {
    if ms == [] then NoEdit()
    else
      var before, m := Given(ms[..|ms| - 1]), ms[|ms| - 1];
      if m.AddMutation? then NoEdit() else if m.EditMutation? then LaidOver(before, m.body) else before
  }

  /** The last check or uncheck queued after the create. */
  function GivenCheck(ms: seq<Mutation>): Option<bool> {
    if ms == [] then None
    else
      var before, m := GivenCheck(ms[..|ms| - 1]), ms[|ms| - 1];
      if m.AddMutation? then None else if m.CheckMutation? then Some(m.checked) else before
  }

  /** A row with those values in it. */
  function WithGiven(w: World, r: Item, ms: seq<Mutation>): Item {
    var checked := if GivenCheck(ms).Some? then GivenCheck(ms).value else r.checked;
    CheckedRow(EditedRow(r, Given(ms)), checked, Some(w.actor), w.now)
  }

  /** The row a create's payload shows. */
  function Entry(w: World, id: ItemId, p: AddPayload): Item {
    OptimisticRow(id, p, Some(w.actor), w.now)
  }

  lemma {:induction false} NoCreateMakesNothing(ms: seq<Mutation>)
    requires NoCreate(ms)
    ensures Payload(ms).None? && !Made(ms)
    decreases ms
  {
    if ms == [] {
    } else {
      NoCreateMakesNothing(ms[..|ms| - 1]);
    }
  }

  /** Sending them makes the item of the payload, with the values given after it. */
  lemma {:induction false} Replayed(w: World, id: ItemId, ms: seq<Mutation>)
    requires Sendable(ms)
    ensures var row := PlayAll(w, None, ms);
            && (Payload(ms).None? ==> row.None?)
            && (OnList(w, row) <==> Made(ms))
            && (Made(ms) ==>
                  && Payload(ms).Some? && AcceptedRow(WithGiven(w, Entry(w, id, Payload(ms).value), ms))
                  && Shows(row.value, WithGiven(w, Entry(w, id, Payload(ms).value), ms)))
    decreases ms
  {
    if ms == [] {
    } else {
      var before, m := ms[..|ms| - 1], ms[|ms| - 1];
      assert Sendable(before);
      Replayed(w, id, before);
      if m.AddMutation? {
        NoCreateMakesNothing(before);
        CreatedShows(w, m.payload, id, w.now);
      } else if Made(before) && !m.DeleteMutation? {
        ReplayedChange(w, PlayAll(w, None, before), Entry(w, id, Payload(before).value), before, m);
        assert before + [m] == ms;
      }
    }
  }

  lemma ReplayedChange(w: World, row: Option<Row>, r: Item, ms: seq<Mutation>, m: Mutation)
    requires OnList(w, row) && Shows(row.value, WithGiven(w, r, ms)) && AcceptedRow(WithGiven(w, r, ms))
    requires AcceptedMutation(m) && (m.EditMutation? || m.CheckMutation?)
    ensures var row' := Play(w, row, m);
            && OnList(w, row') && Shows(row'.value, WithGiven(w, r, ms + [m])) && AcceptedRow(WithGiven(w, r, ms + [m]))
  {
    GivenNext(w, r, ms, m);
    if m.EditMutation? {
      PatchShows(w, row.value, WithGiven(w, r, ms), m.body);
    }
  }

  lemma GivenNext(w: World, r: Item, ms: seq<Mutation>, m: Mutation)
    requires m.EditMutation? || m.CheckMutation?
    ensures Payload(ms + [m]) == Payload(ms) && Made(ms + [m]) == Made(ms)
    ensures WithGiven(w, r, ms + [m])
            == if m.EditMutation? then EditedRow(WithGiven(w, r, ms), m.body)
               else CheckedRow(WithGiven(w, r, ms), m.checked, Some(w.actor), w.now)
  {
    assert (ms + [m])[..|ms|] == ms;
  }

  /** A fold changes the payload, and nothing that was queued after it. */
  lemma {:induction false} FoldKeepsTheRest(ms: seq<Mutation>, change: Change)
    requires Sendable(ms) && AcceptedChange(change)
    ensures var folded := FoldCreate(ms, change);
            && Sendable(folded) && Made(folded) == Made(ms)
            && Given(folded) == Given(ms) && GivenCheck(folded) == GivenCheck(ms)
            && Payload(folded) == if Payload(ms).Some? then Some(Fold.Merge(Payload(ms).value, change)) else None
    decreases ms
  {
    var folded := FoldCreate(ms, change);
    forall k | 0 <= k < |ms| ensures AcceptedMutation(folded[k]) {
      if ms[k].AddMutation? {
        FoldIsAccepted(ms[k].payload, change);
      }
    }
    if ms == [] {
    } else {
      var n := |ms| - 1;
      assert Sendable(ms[..n]) && folded[..n] == FoldCreate(ms[..n], change);
      FoldKeepsTheRest(ms[..n], change);
    }
  }

  // ---------------------------------------------------------------- in sync

  /** What may be entered: the server would accept each field. */
  predicate AcceptedRow(r: Item) {
    && SchemaName(r.name) && Text.TrimSpace(r.name) != "" && SchemaQuantity(r.quantity)
    && r.unit in ListRules.Units() && SchemaNote(r.note)
  }

  /** The screen shows the server's row, trimming and moments aside. */
  predicate Shows(row: Row, r: Item) {
    && row.name == Text.TrimSpace(r.name) && row.quantity == r.quantity && row.unit == r.unit
    && row.note == ListRules.NormalizeNote(r.note) && row.checked == r.checked
    && row.addedBy == r.addedBy && row.boughtBy == r.boughtBy
  }


  /** The user's own check. */
  predicate OwnCheck(w: World, r: Item) {
    r.boughtBy == if r.checked then Some(w.actor) else None
  }

  /**
   An item the server does not have yet is on the screen exactly when what is queued for
   it makes it, and the screen shows what its payload says in every field that nothing
   queued after the create gives.
   */
  predicate TempInSync(w: World, c: Client, id: ItemId) {
    var ms, shown := OnItem(c.outbox, id), RowOf(c.detail.items, id);
    && Sendable(ms)
    && (shown.Some? <==> Made(ms))
    && (shown.Some? ==>
          && Payload(ms).Some? && AcceptedRow(shown.value) && OwnCheck(w, shown.value)
          && WithGiven(w, shown.value, ms) == WithGiven(w, Entry(w, id, Payload(ms).value), ms))
  }

  /**
   Once the outbox is sent, an item the server had is on the list exactly when the screen
   shows it, and is what the screen shows; a removed row that can be restored is what it was.
   */
  predicate RealInSync(w: World, c: Client, id: ItemId)
    requires Known(w, id)
  {
    var row, shown := Played(w, c.outbox, id), RowOf(c.detail.items, id);
    if shown.Some? then OnList(w, row) && Shows(row.value, shown.value) && AcceptedRow(shown.value)
    else
      && !OnList(w, row)
      && (id in c.undo ==> row.Some? && row.value.listId == w.list && Shows(row.value, c.undo[id]))
  }

  ghost predicate ItemInSync(w: World, c: Client, id: ItemId)
    requires Known(w, id)
  {
    if id.Temp? then TempInSync(w, c, id) else RealInSync(w, c, id)
  }

  ghost predicate AllKnown(w: World, c: Client) {
    && KnownMutations(w, c.outbox)
    && (forall r :: r in c.detail.items ==> Known(w, r.id))
    && (forall id :: id in c.undo ==> Known(w, id) && AcceptedRow(c.undo[id]))
  }

  ghost predicate InSync(w: World, c: Client) {
    && Proper(w) && c.list == w.list && c.me == Some(w.actor) && Consistent(c) && AllKnown(w, c)
    && forall id {:trigger ItemInSync(w, c, id)} :: Known(w, id) ==> ItemInSync(w, c, id)
  }

  /** The sessions differ in what they have of one item at most. */
  ghost predicate SameElsewhere(c: Client, d: Client, id: ItemId) {
    && d.list == c.list && d.me == c.me
    && forall other :: other != id ==>
         && OnItem(d.outbox, other) == OnItem(c.outbox, other)
         && RowOf(d.detail.items, other) == RowOf(c.detail.items, other)
         && (other in d.undo <==> other in c.undo) && (other in c.undo ==> d.undo[other] == c.undo[other])
  }

  lemma SyncElsewhere(w: World, c: Client, d: Client, id: ItemId)
    requires InSync(w, c) && SameElsewhere(c, d, id) && Consistent(d) && AllKnown(w, d)
    requires Known(w, id) && ItemInSync(w, d, id)
    ensures InSync(w, d)
  {
    forall other | Known(w, other) ensures ItemInSync(w, d, other) {
      assert ItemInSync(w, c, other);
    }
  }

  // ---------------------------------------------------------------- contents

  lemma CreatedShows(w: World, p: AddPayload, id: ItemId, at: Time)
    requires AcceptedAdd(p)
    ensures var r := OptimisticRow(id, p, Some(w.actor), at);
            Shows(Created(p, w.list, w.actor, w.now), r) && AcceptedRow(r) && OnList(w, Some(Created(p, w.list, w.actor, w.now)))
  {
    AcceptedAddExactly(p);
    assert "" !in ListRules.Units();
  }

  lemma PatchShows(w: World, row: Row, r: Item, body: EditBody)
    requires Shows(row, r) && AcceptedRow(r) && AcceptedEdit(body)
    ensures Shows(Store.Patched(row, Store.CleanUpdate(EditUpdate(body)).value, w.now), EditedRow(r, body))
    ensures AcceptedRow(EditedRow(r, body))
  {
    AcceptedEditExactly(body);
    assert "" !in ListRules.Units();
  }


  // ---------------------------------------------------------------- adding

  lemma {:induction false} OnItemCame(outbox: seq<Mutation>, id: ItemId, k: nat) returns (i: nat)
    requires k < |OnItem(outbox, id)|
    ensures i < |outbox| && About(outbox[i]) == id && (outbox[i].AddMutation? <==> OnItem(outbox, id)[k].AddMutation?)
    decreases outbox
  {
    var n := |outbox| - 1;
    var before := OnItem(outbox[..n], id);
    if k < |before| {
      i := OnItemCame(outbox[..n], id, k);
      assert outbox[..n][i] == outbox[i];
    } else {
      i := n;
    }
  }

  lemma NoCreateQueued(c: Client, id: ItemId)
    requires Unseen(c, id)
    ensures NoCreate(OnItem(c.outbox, id))
  {
    forall k | 0 <= k < |OnItem(c.outbox, id)| ensures !OnItem(c.outbox, id)[k].AddMutation? {
      var i := OnItemCame(c.outbox, id, k);
    }
  }

  lemma AddElsewhere(w: World, c: Client, id: ItemId, payload: AddPayload, at: Time)
    requires InSync(w, c) && Known(w, id) && Unseen(c, id)
    ensures var d := AddItem(c, id, payload, at);
            && SameElsewhere(c, d, id) && AllKnown(w, d)
            && RowOf(d.detail.items, id) == Some(OptimisticRow(id, payload, c.me, at))
            && OnItem(d.outbox, id) == OnItem(c.outbox, id) + [AddMutation(c.list, id, payload, false)]
  {
    var d, m, r := AddItem(c, id, payload, at), AddMutation(c.list, id, payload, false), OptimisticRow(id, payload, c.me, at);
    forall other ensures OnItem(d.outbox, other) == OnItem(c.outbox, other) + if other == id then [m] else [] {
      OnItemAppend(c.outbox, m, other);
    }
    forall other ensures RowOf(d.detail.items, other) == if other == id then Some(r) else RowOf(c.detail.items, other) {
      RowOfAppend(c.detail.items, r, other);
    }
  }

  /** A new create resets what was given before it. */
  lemma CreateNext(w: World, id: ItemId, ms: seq<Mutation>, m: Mutation, at: Time)
    requires m.AddMutation? && AcceptedAdd(m.payload) && Sendable(ms) && NoCreate(ms)
    ensures var r := OptimisticRow(id, m.payload, Some(w.actor), at);
            && Sendable(ms + [m]) && Made(ms + [m]) && Payload(ms + [m]) == Some(m.payload)
            && Given(ms + [m]) == NoEdit() && GivenCheck(ms + [m]) == None
            && AcceptedRow(r) && OwnCheck(w, r)
            && WithGiven(w, r, ms + [m]) == WithGiven(w, Entry(w, id, m.payload), ms + [m])
  {
    CreatedShows(w, m.payload, id, at);
    SendableNext(ms, m);
  }

  lemma AddSyncs(w: World, c: Client, id: ItemId, payload: AddPayload, at: Time)
    requires InSync(w, c) && Known(w, id) && Unseen(c, id) && AcceptedAdd(payload)
    ensures InSync(w, AddItem(c, id, payload, at)) && SameElsewhere(c, AddItem(c, id, payload, at), id)
    ensures Given(OnItem(AddItem(c, id, payload, at).outbox, id)) == NoEdit()
    ensures GivenCheck(OnItem(AddItem(c, id, payload, at).outbox, id)) == None
  {
    var d := AddItem(c, id, payload, at);
    AddKeeps(c, id, payload, at);
    AddElsewhere(w, c, id, payload, at);
    assert ItemInSync(w, c, id);
    NoCreateQueued(c, id);
    CreateNext(w, id, OnItem(c.outbox, id), AddMutation(c.list, id, payload, false), at);
    SyncElsewhere(w, c, d, id);
  }

  // ---------------------------------------------------------------- changing

  lemma QueueLeavesOthers(outbox: seq<Mutation>, m: Mutation)
    ensures forall other :: other != About(m) ==> OnItem(outbox + [m], other) == OnItem(outbox, other)
  {
    forall other | other != About(m) ensures OnItem(outbox + [m], other) == OnItem(outbox, other) {
      OnItemAppend(outbox, m, other);
    }
  }

  /** Queueing a mutation about an item plays it on the item's row. */
  lemma QueuePlays(w: World, outbox: seq<Mutation>, m: Mutation)
    requires Known(w, About(m))
    ensures Played(w, outbox + [m], About(m)) == Play(w, Played(w, outbox, About(m)), m)
  {
    assert (outbox + [m])[..|outbox|] == outbox;
  }

  lemma {:induction false} FoldKnown(w: World, outbox: seq<Mutation>, id: ItemId, online: bool, change: Change)
    requires KnownMutations(w, outbox)
    ensures KnownMutations(w, FoldInto(outbox, id, online, change))
    decreases outbox
  {
    if outbox == [] {
    } else {
      var folded, rest := FoldInto(outbox, id, online, change), FoldInto(outbox[1..], id, online, change);
      FoldKnown(w, outbox[1..], id, online, change);
      forall m | m in folded ensures Known(w, About(m)) {
        assert About(folded[0]) == About(outbox[0]) && outbox[0] in outbox;
        assert folded == [folded[0]] + folded[1..];
        assert folded[1..] == outbox[1..] || folded[1..] == rest;
      }
    }
  }

  lemma {:induction false} CancelKnown(w: World, outbox: seq<Mutation>, id: ItemId, online: bool)
    requires KnownMutations(w, outbox)
    ensures KnownMutations(w, Cancel(outbox, id, online))
    decreases outbox
  {
    if outbox == [] {
    } else {
      CancelKnown(w, outbox[1..], id, online);
    }
  }

  lemma {:induction false} PauseKnown(w: World, outbox: seq<Mutation>, id: ItemId)
    requires KnownMutations(w, outbox)
    ensures KnownMutations(w, PauseCreate(outbox, id))
    decreases outbox
  {
    if outbox == [] {
    } else {
      var paused := PauseCreate(outbox, id);
      PauseKnown(w, outbox[1..], id);
      assert About(paused[0]) == About(outbox[0]) && outbox[0] in outbox;
      assert paused == [paused[0]] + PauseCreate(outbox[1..], id);
    }
  }

  lemma ShownIsKnown(w: World, c: Client, id: ItemId)
    requires AllKnown(w, c) && RowOf(c.detail.items, id).Some?
    ensures Known(w, id)
  {
    RowOfFinds(c.detail.items, id);
  }

  /** The outbox after a change: folded, or queued as a mutation of its own. */
  function Changed(c: Client, id: ItemId, change: Change, m: Mutation): seq<Mutation> {
    if id.Temp? && Queued(c.outbox, id, c.online) then FoldInto(c.outbox, id, c.online, change) else c.outbox + [m]
  }

  lemma FoldIsAccepted(p: AddPayload, change: Change)
    requires AcceptedAdd(p) && AcceptedChange(change)
    ensures AcceptedAdd(Fold.Merge(p, change))
  {
    if change.Edit? {
      FoldAcceptsExactly(p, change.body);
    } else {
      AcceptedAddExactly(p);
      AcceptedAddExactly(Fold.Merge(p, change));
    }
  }

  /** The row shown after a change. */
  function ChangedRow(w: World, r: Item, change: Change, at: Time): Item {
    match change
    case Edit(body) => EditedRow(r, body)
    case Check => CheckedRow(r, true, Some(w.actor), at)
    case Uncheck => CheckedRow(r, false, Some(w.actor), at)
  }

  predicate IsQueuedAs(change: Change, m: Mutation) {
    match change
    case Edit(body) => m.EditMutation? && m.body == body
    case Check => m.CheckMutation? && m.checked
    case Uncheck => m.CheckMutation? && !m.checked
  }

  lemma PlayShows(w: World, row: Option<Row>, r: Item, change: Change, m: Mutation, at: Time)
    requires OnList(w, row) && Shows(row.value, r) && AcceptedRow(r) && IsQueuedAs(change, m) && AcceptedChange(change)
    requires !change.Edit? ==> change.Check? == !r.checked
    ensures var row', r' := Play(w, row, m), ChangedRow(w, r, change, at);
            OnList(w, row') && Shows(row'.value, r') && AcceptedRow(r')
  {
    if change.Edit? {
      PatchShows(w, row.value, r, change.body);
    }
  }


  /** Either way the other items' mutations stay. */
  lemma ChangeElsewhere(w: World, c: Client, id: ItemId, change: Change, m: Mutation)
    requires KnownMutations(w, c.outbox) && Known(w, id) && About(m) == id
    requires id.Temp? ==> Sendable(OnItem(c.outbox, id))
    ensures KnownMutations(w, Changed(c, id, change, m))
    ensures forall other :: other != id ==> OnItem(Changed(c, id, change, m), other) == OnItem(c.outbox, other)
  {
    if id.Temp? && Queued(c.outbox, id, c.online) {
      forall other | other != id ensures OnItem(Changed(c, id, change, m), other) == OnItem(c.outbox, other) {
        FoldOnItem(c.outbox, id, c.online, change, other);
      }
      FoldKnown(w, c.outbox, id, c.online, change);
    } else {
      QueueLeavesOthers(c.outbox, m);
    }
  }

  /** What a change leaves queued for an item the server does not have yet. */
  lemma ChangeOnItem(c: Client, id: ItemId, change: Change, m: Mutation)
    requires id.Temp? && Sendable(OnItem(c.outbox, id)) && About(m) == id && IsQueuedAs(change, m)
    ensures OnItem(Changed(c, id, change, m), id)
            == if Queued(c.outbox, id, c.online) then FoldCreate(OnItem(c.outbox, id), change) else OnItem(c.outbox, id) + [m]
  {
    if Queued(c.outbox, id, c.online) {
      FoldOnItem(c.outbox, id, c.online, change, id);
    } else {
      OnItemAppend(c.outbox, m, id);
    }
  }

  lemma ChangedIsAccepted(w: World, r: Item, change: Change, at: Time)
    requires AcceptedRow(r) && AcceptedChange(change)
    ensures AcceptedRow(ChangedRow(w, r, change, at))
    ensures OwnCheck(w, r) ==> OwnCheck(w, ChangedRow(w, r, change, at))
  {
    if change.Edit? {
      AcceptedEditExactly(change.body);
    }
  }

  /** A change folded into the payload changes the fields nothing gives after it. */
  lemma FoldedAlike(w: World, id: ItemId, r: Item, p: AddPayload, change: Change, at: Time, ms: seq<Mutation>, folded: seq<Mutation>)
    requires WithGiven(w, r, ms) == WithGiven(w, Entry(w, id, p), ms)
    requires Given(folded) == Given(ms) && GivenCheck(folded) == GivenCheck(ms)
    ensures WithGiven(w, ChangedRow(w, r, change, at), folded) == WithGiven(w, Entry(w, id, Fold.Merge(p, change)), folded)
  {
  }

  lemma QueuedAlike(w: World, r: Item, change: Change, at: Time, ms: seq<Mutation>, m: Mutation)
    requires IsQueuedAs(change, m)
    ensures WithGiven(w, ChangedRow(w, r, change, at), ms + [m]) == WithGiven(w, r, ms + [m])
  {
    assert (ms + [m])[..|ms|] == ms;
  }

  lemma TempChanges(w: World, c: Client, d: Client, id: ItemId, change: Change, m: Mutation, at: Time)
    requires id.Temp? && TempInSync(w, c, id) && RowOf(c.detail.items, id).Some?
    requires About(m) == id && IsQueuedAs(change, m) && AcceptedChange(change)
    requires d.outbox == Changed(c, id, change, m)
    requires RowOf(d.detail.items, id) == Some(ChangedRow(w, RowOf(c.detail.items, id).value, change, at))
    ensures TempInSync(w, d, id)
  {
    var ms, r := OnItem(c.outbox, id), RowOf(c.detail.items, id).value;
    var p := Payload(ms).value;
    ChangeOnItem(c, id, change, m);
    ChangedIsAccepted(w, r, change, at);
    if Queued(c.outbox, id, c.online) {
      FoldKeepsTheRest(ms, change);
      FoldedAlike(w, id, r, p, change, at, ms, FoldCreate(ms, change));
    } else {
      SendableNext(ms, m);
      QueuedAlike(w, r, change, at, ms, m);
      GivenNext(w, r, ms, m);
      GivenNext(w, Entry(w, id, p), ms, m);
    }
  }

  /** The session is the other one after a change to one row. */
  ghost predicate IsChanged(w: World, c: Client, d: Client, id: ItemId, change: Change, m: Mutation, at: Time) {
    && About(m) == id && IsQueuedAs(change, m) && AcceptedChange(change)
    && RowOf(c.detail.items, id).Some? && (!change.Edit? ==> change.Check? == !RowOf(c.detail.items, id).value.checked)
    && d.list == c.list && d.me == c.me && d.undo == c.undo && d.outbox == Changed(c, id, change, m)
    && forall other ::
         RowOf(d.detail.items, other) == if other == id then Some(ChangedRow(w, RowOf(c.detail.items, id).value, change, at))
                                         else RowOf(c.detail.items, other)
  }

  lemma ChangeSyncs(w: World, c: Client, d: Client, id: ItemId, change: Change, m: Mutation, at: Time)
    requires InSync(w, c) && IsChanged(w, c, d, id, change, m, at) && Consistent(d)
    requires forall r :: r in d.detail.items ==> Known(w, r.id)
    ensures InSync(w, d) && SameElsewhere(c, d, id)
  {
    ShownIsKnown(w, c, id);
    assert ItemInSync(w, c, id);
    ChangeElsewhere(w, c, id, change, m);
    if id.Temp? {
      TempChanges(w, c, d, id, change, m, at);
    } else {
      QueuePlays(w, c.outbox, m);
      PlayShows(w, Played(w, c.outbox, id), RowOf(c.detail.items, id).value, change, m, at);
    }
    SyncElsewhere(w, c, d, id);
  }

  lemma {:induction false} EditedKnown(w: World, items: seq<Item>, of: ItemId, body: EditBody)
    requires forall r :: r in items ==> Known(w, r.id)
    ensures forall r :: r in EditRows(items, of, body) ==> Known(w, r.id)
    decreases items
  {
    if items == [] {
    } else {
      EditedKnown(w, items[1..], of, body);
    }
  }

  lemma {:induction false} CheckedKnown(w: World, items: seq<Item>, of: ItemId, checked: bool, me: Option<User>, at: Time)
    requires forall r :: r in items ==> Known(w, r.id)
    ensures forall r :: r in CheckRows(items, of, checked, me, at) ==> Known(w, r.id)
    decreases items
  {
    if items == [] {
    } else {
      CheckedKnown(w, items[1..], of, checked, me, at);
    }
  }

  lemma {:induction false} WithoutKnown(w: World, items: seq<Item>, of: ItemId)
    requires forall r :: r in items ==> Known(w, r.id)
    ensures forall r :: r in Without(items, of) ==> Known(w, r.id)
    decreases items
  {
    if items == [] {
    } else {
      WithoutKnown(w, items[1..], of);
    }
  }

  lemma EditIsChange(w: World, c: Client, id: ItemId, body: EditBody)
    requires RowOf(c.detail.items, id).Some? && AcceptedEdit(body)
    ensures IsChanged(w, c, EditItem(c, id, body), id, Edit(body), EditMutation(c.list, id, body), w.now)
  {
    var d := EditItem(c, id, body);
    forall other ensures RowOf(d.detail.items, other)
                         == if other == id then Some(EditedRow(RowOf(c.detail.items, id).value, body)) else RowOf(c.detail.items, other) {
      RowOfEdit(c.detail.items, id, body, other);
    }
  }

  lemma EditSyncs(w: World, c: Client, id: ItemId, body: EditBody)
    requires InSync(w, c) && RowOf(c.detail.items, id).Some? && AcceptedEdit(body)
    ensures var d := EditItem(c, id, body);
            && InSync(w, d) && SameElsewhere(c, d, id)
            && IsChanged(w, c, d, id, Edit(body), EditMutation(c.list, id, body), w.now)
  {
    EditIsChange(w, c, id, body);
    EditKeeps(c, id, body);
    EditedKnown(w, c.detail.items, id, body);
    ChangeSyncs(w, c, EditItem(c, id, body), id, Edit(body), EditMutation(c.list, id, body), w.now);
  }

  lemma ToggleIsChange(w: World, c: Client, id: ItemId, checked: bool, at: Time)
    requires c.me == Some(w.actor) && RowOf(c.detail.items, id).Some? && RowOf(c.detail.items, id).value.checked != checked
    ensures IsChanged(w, c, ClientCache.SetChecked(c, id, checked, at), id, if checked then Check else Uncheck,
                      CheckMutation(c.list, id, checked), at)
  {
    var d, change := ClientCache.SetChecked(c, id, checked, at), if checked then Check else Uncheck;
    forall other ensures RowOf(d.detail.items, other)
                         == if other == id then Some(ChangedRow(w, RowOf(c.detail.items, id).value, change, at))
                            else RowOf(c.detail.items, other) {
      RowOfCheck(c.detail.items, id, checked, c.me, at, other);
    }
  }

  lemma ToggleSyncs(w: World, c: Client, id: ItemId, at: Time)
    requires InSync(w, c) && RowOf(c.detail.items, id).Some?
    ensures var checked := !RowOf(c.detail.items, id).value.checked;
            var d := ClientCache.SetChecked(c, id, checked, at);
            && InSync(w, d) && SameElsewhere(c, d, id)
            && IsChanged(w, c, d, id, if checked then Check else Uncheck, CheckMutation(c.list, id, checked), at)
  {
    var checked := !RowOf(c.detail.items, id).value.checked;
    ToggleIsChange(w, c, id, checked, at);
    ToggleKeeps(c, id, checked, at);
    CheckedKnown(w, c.detail.items, id, checked, c.me, at);
    ChangeSyncs(w, c, ClientCache.SetChecked(c, id, checked, at), id, if checked then Check else Uncheck,
                CheckMutation(c.list, id, checked), at);
  }

  // ---------------------------------------------------------------- removing

  /** A removal leaves the other items' mutations. */
  lemma DeleteElsewhere(w: World, c: Client, id: ItemId)
    requires KnownMutations(w, c.outbox) && Known(w, id) && (id.Temp? ==> Sendable(OnItem(c.outbox, id)))
    ensures var o := DeleteQueued(c, id).outbox;
            KnownMutations(w, o) && forall other :: other != id ==> OnItem(o, other) == OnItem(c.outbox, other)
  {
    if id.Temp? && Queued(c.outbox, id, c.online) {
      forall other | other != id ensures OnItem(Cancel(c.outbox, id, c.online), other) == OnItem(c.outbox, other) {
        CancelOnItem(c.outbox, id, c.online, other);
      }
      CancelKnown(w, c.outbox, id, c.online);
    } else {
      QueueLeavesOthers(c.outbox, DeleteMutation(c.list, id));
    }
  }

  /** An item that is not there yet is never made, or deleted again. */
  lemma DeleteUnmakes(c: Client, id: ItemId)
    requires id.Temp? && Sendable(OnItem(c.outbox, id))
    ensures var ms := OnItem(DeleteQueued(c, id).outbox, id); Sendable(ms) && !Made(ms)
  {
    if Queued(c.outbox, id, c.online) {
      CancelOnItem(c.outbox, id, c.online, id);
      NoCreateMakesNothing(OnItem(Cancel(c.outbox, id, c.online), id));
    } else {
      var m := DeleteMutation(c.list, id);
      OnItemAppend(c.outbox, m, id);
      SendableNext(OnItem(c.outbox, id), m);
    }
  }

  lemma DeletedRow(w: World, row: Option<Row>, r: Item, list: ListId, id: ItemId)
    requires OnList(w, row) && Shows(row.value, r)
    ensures var gone := Play(w, row, DeleteMutation(list, id));
            !OnList(w, gone) && gone.Some? && gone.value.listId == w.list && Shows(gone.value, r)
  {
  }

  lemma OthersStay(items: seq<Item>, id: ItemId)
    ensures forall other :: RowOf(Without(items, id), other) == if other == id then None else RowOf(items, other)
  {
    forall other ensures RowOf(Without(items, id), other) == if other == id then None else RowOf(items, other) {
      RowOfWithout(items, id, other);
    }
  }

  lemma RemoveElsewhere(w: World, c: Client, id: ItemId)
    requires InSync(w, c) && RowOf(c.detail.items, id).Some?
    ensures Known(w, id) && RowOf(c.detail.items, id).value.id == id
    ensures var d := RemoveItem(c, RowOf(c.detail.items, id).value);
            && SameElsewhere(c, d, id) && AllKnown(w, d)
            && d.outbox == DeleteQueued(c, id).outbox && RowOf(d.detail.items, id).None?
  {
    RowOfFinds(c.detail.items, id);
    var d := RemoveItem(c, RowOf(c.detail.items, id).value);
    ShownIsKnown(w, c, id);
    OthersStay(c.detail.items, id);
    WithoutKnown(w, c.detail.items, id);
    assert ItemInSync(w, c, id);
    assert d.outbox == DeleteQueued(c, id).outbox;
    DeleteElsewhere(w, c, id);
  }

  lemma RemoveSyncs(w: World, c: Client, id: ItemId)
    requires InSync(w, c) && RowOf(c.detail.items, id).Some?
    ensures var d := RemoveItem(c, RowOf(c.detail.items, id).value);
            InSync(w, d) && SameElsewhere(c, d, id) && RowOf(d.detail.items, id).None?
  {
    var row := RowOf(c.detail.items, id).value;
    RemoveElsewhere(w, c, id);
    RemoveKeeps(c, row);
    assert ItemInSync(w, c, id);
    if id.Temp? {
      DeleteUnmakes(c, id);
    } else {
      var m := DeleteMutation(c.list, id);
      QueuePlays(w, c.outbox, m);
      DeletedRow(w, Played(w, c.outbox, id), row, c.list, id);
    }
    SyncElsewhere(w, c, RemoveItem(c, row), id);
  }

  // ---------------------------------------------------------------- undoing a removal

  lemma TakenSyncs(w: World, c: Client, id: ItemId)
    requires InSync(w, c) && id in c.undo
    ensures InSync(w, c.(undo := c.undo - {id}))
  {
    var d := c.(undo := c.undo - {id});
    forall other | Known(w, other) ensures ItemInSync(w, d, other) {
      assert ItemInSync(w, c, other);
    }
  }

  lemma ReaddSyncs(w: World, c: Client, id: ItemId, tempId: ItemId, at: Time)
    requires InSync(w, c) && id in c.undo && id.Temp? && Unseen(c, tempId) && Known(w, tempId)
    ensures InSync(w, AddItem(c.(undo := c.undo - {id}), tempId, ReaddPayload(c.undo[id]), at))
  {
    TakenSyncs(w, c, id);
    ReaddIsAccepted(c.undo[id]);
    AddSyncs(w, c.(undo := c.undo - {id}), tempId, ReaddPayload(c.undo[id]), at);
  }

  lemma UndoSyncs(w: World, c: Client, id: ItemId, tempId: ItemId, at: Time)
    requires InSync(w, c) && id in c.undo && Unseen(c, tempId) && Known(w, tempId)
    ensures InSync(w, UndoRemoval(c, c.undo[id], tempId, at))
  {
    assert c.undo[id].id == id;
    if id.Temp? {
      ReaddSyncs(w, c, id, tempId, at);
    } else {
      RestoreSyncs(w, c, id);
    }
  }

  lemma ReaddIsAccepted(row: Item)
    requires AcceptedRow(row)
    ensures AcceptedAdd(ReaddPayload(row))
  {
    AcceptedAddExactly(ReaddPayload(row));
  }

  /** Undoing the removal of a synced row. */
  function Restored(c: Client, id: ItemId): Client
    requires id in c.undo
  {
    RestoreLocally(c.(undo := c.undo - {id}), c.undo[id]).(outbox := c.outbox + [RestoreMutation(c.list, c.undo[id])])
  }

  lemma RestoreRows(c: Client, id: ItemId)
    requires Consistent(c) && id in c.undo
    ensures c.undo[id].id == id && Consistent(Restored(c, id))
    ensures forall other ::
              RowOf(Restored(c, id).detail.items, other) == if other == id then Some(c.undo[id]) else RowOf(c.detail.items, other)
  {
    var row, d := c.undo[id], Restored(c, id);
    assert row.id == id && !Has(c.detail.items, id);
    RestoreKeeps(c, row);
    forall other ensures RowOf(d.detail.items, other) == if other == id then Some(row) else RowOf(c.detail.items, other) {
      RowOfAppend(c.detail.items, row, other);
    }
  }

  lemma RestoreLeavesOthers(c: Client, id: ItemId)
    requires Consistent(c) && id in c.undo
    ensures SameElsewhere(c, Restored(c, id), id)
  {
    RestoreRows(c, id);
    QueueLeavesOthers(c.outbox, RestoreMutation(c.list, c.undo[id]));
  }

  lemma RestoreElsewhere(w: World, c: Client, id: ItemId)
    requires Consistent(c) && AllKnown(w, c) && id in c.undo && id.Real?
    ensures var d := Restored(c, id);
            && SameElsewhere(c, d, id) && AllKnown(w, d) && Consistent(d)
            && RowOf(d.detail.items, id) == Some(c.undo[id])
  {
    RestoreRows(c, id);
    RestoreLeavesOthers(c, id);
  }

  lemma RestoredRow(w: World, row: Option<Row>, r: Item, list: ListId)
    requires row.Some? && row.value.listId == w.list && Shows(row.value, r)
    ensures var back := Play(w, row, RestoreMutation(list, r)); OnList(w, back) && Shows(back.value, r)
  {
  }

  lemma RestoreSyncs(w: World, c: Client, id: ItemId)
    requires InSync(w, c) && id in c.undo && id.Real?
    ensures InSync(w, Restored(c, id))
  {
    RestoreElsewhere(w, c, id);
    assert ItemInSync(w, c, id) && c.undo[id].id == id;
    RowOfFinds(c.detail.items, id);
    QueuePlays(w, c.outbox, RestoreMutation(c.list, c.undo[id]));
    RestoredRow(w, Played(w, c.outbox, id), c.undo[id], c.list);
    SyncElsewhere(w, c, Restored(c, id), id);
  }

  // ---------------------------------------------------------------- sessions

  lemma PauseSyncs(w: World, c: Client, id: ItemId)
    requires InSync(w, c)
    ensures InSync(w, c.(outbox := PauseCreate(c.outbox, id)))
  {
    var d := c.(outbox := PauseCreate(c.outbox, id));
    PauseKnown(w, c.outbox, id);
    forall other ensures OnItem(d.outbox, other) == OnItem(c.outbox, other) {
      PauseOnItem(c.outbox, id, other);
    }
    forall other | Known(w, other) ensures ItemInSync(w, d, other) {
      assert ItemInSync(w, c, other);
    }
  }

  lemma OnlineSyncs(w: World, c: Client, online: bool)
    requires InSync(w, c)
    ensures InSync(w, c.(online := online))
  {
    forall id | Known(w, id) ensures ItemInSync(w, c.(online := online), id) {
      assert ItemInSync(w, c, id);
    }
  }

  /** What is entered is acceptable, and new ids are among those the server has an id for. */
  predicate Entered(w: World, op: Op) {
    match op
    case AddOp(tempId, payload, _) => AcceptedAdd(payload) && Known(w, tempId)
    case EditOp(_, body) => AcceptedEdit(body)
    case UndoOp(_, tempId, _) => Known(w, tempId)
    case _ => true
  }

  lemma DoSyncs(w: World, c: Client, op: Op)
    requires InSync(w, c) && Entered(w, op)
    ensures InSync(w, Do(c, op))
  {
    match op {
      case AddOp(tempId, payload, at) =>
        if Unseen(c, tempId) {
          AddSyncs(w, c, tempId, payload, at);
        }
      case EditOp(id, body) =>
        RowOfFinds(c.detail.items, id);
        if Has(c.detail.items, id) {
          EditSyncs(w, c, id, body);
        }
      case ToggleOp(id, at) =>
        if RowOf(c.detail.items, id).Some? {
          ToggleSyncs(w, c, id, at);
        }
      case RemoveOp(id) =>
        if RowOf(c.detail.items, id).Some? {
          RemoveSyncs(w, c, id);
        }
      case UndoOp(id, tempId, at) =>
        if id in c.undo && Unseen(c, tempId) {
          UndoSyncs(w, c, id, tempId, at);
        }
      case PauseOp(id) => PauseSyncs(w, c, id);
      case OnlineOp(online) => OnlineSyncs(w, c, online);
    }
  }

  /** Whatever is done keeps the screen and the outbox in step. */
  lemma {:induction false} SessionSyncs(w: World, c: Client, ops: seq<Op>)
    requires InSync(w, c) && forall i :: 0 <= i < |ops| ==> Entered(w, ops[i])
    ensures InSync(w, DoAll(c, ops))
    decreases ops
  {
    if ops == [] {
    } else {
      var rest := ops[1..];
      assert forall i :: 0 <= i < |rest| ==> rest[i] == ops[i + 1];
      DoSyncs(w, c, ops[0]);
      SessionSyncs(w, Do(c, ops[0]), rest);
    }
  }

  // ---------------------------------------------------------------- the result

  /** Nothing is queued, and the screen shows what the server has. */
  ghost predicate FreshlyLoaded(w: World, c: Client) {
    && Proper(w) && c.list == w.list && c.me == Some(w.actor) && Consistent(c) && c.outbox == [] && c.undo == map[]
    && (forall r :: r in c.detail.items ==>
          r.id.Real? && Store.Live(w.t, w.list, r.id.n) && Shows(w.t.items[r.id.n], r) && AcceptedRow(r))
    && (forall n :: Store.Live(w.t, w.list, n) ==> Has(c.detail.items, Real(n)))
  }

  lemma LoadedIsInSync(w: World, c: Client)
    requires FreshlyLoaded(w, c)
    ensures InSync(w, c)
  {
    forall id | Known(w, id) ensures ItemInSync(w, c, id) {
      RowOfFinds(c.detail.items, id);
      assert OnItem(c.outbox, id) == [];
      if id.Real? && OnList(w, RowIn(w.t, id.n)) {
        assert Store.Live(w.t, w.list, id.n);
      }
    }
  }

  lemma {:induction false} ForeignRowsStay(w: World, row: Option<Row>, ms: seq<Mutation>)
    requires row.Some? && row.value.listId != w.list
    ensures PlayAll(w, row, ms) == row
    decreases ms
  {
    if ms == [] {
    } else {
      ForeignRowsStay(w, row, ms[..|ms| - 1]);
    }
  }

  /** What the server makes of a shown row: a new item has the values given after its create. */
  function Arrived(w: World, d: Client, r: Item): Item {
    if r.id.Temp? then WithGiven(w, r, OnItem(d.outbox, r.id)) else r
  }

  /** Every value that is given after an item's create is, as the server stores it, the one shown. */
  predicate GivenIsShown(r: Item, ms: seq<Mutation>) {
    var given := Given(ms);
    && (given.name.Some? ==> Text.TrimSpace(given.name.value) == Text.TrimSpace(r.name))
    && (given.quantity.Some? ==> given.quantity.value == r.quantity)
    && (given.unit.Some? ==> given.unit.value == r.unit)
    && (given.note.Some? ==> ListRules.NormalizeNote(given.note.value) == ListRules.NormalizeNote(r.note))
    && (GivenCheck(ms).Some? ==> GivenCheck(ms).value == r.checked)
  }

  /** The server has the row as it is shown, trimming and moments aside. */
  predicate Stands(d: Client, r: Item) {
    r.id.Temp? ==> GivenIsShown(r, OnItem(d.outbox, r.id))
  }

  lemma ShowsExactly(w: World, row: Row, r: Item, ms: seq<Mutation>)
    requires Shows(row, WithGiven(w, r, ms)) && OwnCheck(w, r)
    ensures Shows(row, r) <==> GivenIsShown(r, ms)
  {
  }

  /** A row on the screen, and what has become of it on the server. */
  lemma ItemArrives(w: World, d: Client, id: ItemId)
    requires InSync(w, d) && Known(w, id)
    ensures var row, shown := Played(w, d.outbox, id), RowOf(d.detail.items, id);
            && (shown.Some? <==> OnList(w, row))
            && (shown.Some? ==>
                  && shown.value.id == id && Shows(row.value, Arrived(w, d, shown.value))
                  && (Shows(row.value, shown.value) <==> Stands(d, shown.value)))
  {
    assert ItemInSync(w, d, id);
    RowOfFinds(d.detail.items, id);
    var shown, ms := RowOf(d.detail.items, id), OnItem(d.outbox, id);
    if id.Temp? {
      assert RowIn(w.t, ServerId(w, id)) == None;
      Replayed(w, id, ms);
      if shown.Some? {
        ShowsExactly(w, Played(w, d.outbox, id).value, shown.value, ms);
      }
    }
  }

  /**
   The items on the list are exactly the ones shown. Each has the values it was given
   after its create, so it is as it is shown exactly when those are the ones shown. Other
   lists' items are as they were.
   */
  ghost predicate ScreenArrives(w: World, d: Client)
    requires KnownMutations(w, d.outbox)
  {
    var t := Sent(w, d.outbox);
    && (forall r :: r in d.detail.items ==>
          && Known(w, r.id) && Store.Live(t, w.list, ServerId(w, r.id))
          && Shows(t.items[ServerId(w, r.id)], Arrived(w, d, r))
          && (Shows(t.items[ServerId(w, r.id)], r) <==> Stands(d, r)))
    && (forall id :: Known(w, id) ==> (Has(d.detail.items, id) <==> Store.Live(t, w.list, ServerId(w, id))))
    && (forall n :: Store.Live(t, w.list, n) ==> exists r :: r in d.detail.items && Known(w, r.id) && ServerId(w, r.id) == n)
    && (forall n :: n in w.t.items && w.t.items[n].listId != w.list ==> n in t.items && t.items[n] == w.t.items[n])
  }

  /**
   Through every session of the list screen that starts from the loaded list and enters
   only what the server accepts, once the outbox has been sent in order, the list on the
   server is the one on the screen.
   */
  lemma SentOutboxIsTheScreen(w: World, c: Client, ops: seq<Op>)
    requires FreshlyLoaded(w, c) && forall i :: 0 <= i < |ops| ==> Entered(w, ops[i])
    ensures KnownMutations(w, DoAll(c, ops).outbox) && ScreenArrives(w, DoAll(c, ops))
  {
    LoadedIsInSync(w, c);
    SessionSyncs(w, c, ops);
    ScreenIsServer(w, DoAll(c, ops));
  }

  lemma ScreenIsServer(w: World, d: Client)
    requires InSync(w, d)
    ensures ScreenArrives(w, d)
  {
    var t := Sent(w, d.outbox);
    SentPlays(w, d.outbox);
    forall r | r in d.detail.items
      ensures Known(w, r.id) && Store.Live(t, w.list, ServerId(w, r.id))
      ensures Shows(t.items[ServerId(w, r.id)], Arrived(w, d, r))
      ensures Shows(t.items[ServerId(w, r.id)], r) <==> Stands(d, r)
    {
      RowOfUnique(d.detail.items, r);
      ItemArrives(w, d, r.id);
      assert RowIn(t, ServerId(w, r.id)) == Played(w, d.outbox, r.id);
    }
    forall id | Known(w, id) ensures Has(d.detail.items, id) <==> Store.Live(t, w.list, ServerId(w, id)) {
      ItemArrives(w, d, id);
      RowOfFinds(d.detail.items, id);
      assert RowIn(t, ServerId(w, id)) == Played(w, d.outbox, id);
    }
    forall n | Store.Live(t, w.list, n) ensures exists r :: r in d.detail.items && Known(w, r.id) && ServerId(w, r.id) == n {
      var id := LiveIsKnown(w, d, n);
      RowOfFinds(d.detail.items, id);
    }
    forall n | n in w.t.items && w.t.items[n].listId != w.list ensures n in t.items && t.items[n] == w.t.items[n] {
      assert Known(w, Real(n)) && RowIn(t, ServerId(w, Real(n))) == Played(w, d.outbox, Real(n));
      ForeignRowsStay(w, RowIn(w.t, n), OnItem(d.outbox, Real(n)));
    }
  }

  lemma LiveIsKnown(w: World, d: Client, n: Store.Id) returns (id: ItemId)
    requires InSync(w, d) && Store.Live(Sent(w, d.outbox), w.list, n)
    ensures Known(w, id) && ServerId(w, id) == n
  {
    SentPlays(w, d.outbox);
    if n in w.t.items {
      id := Real(n);
    } else {
      assert RowIn(Sent(w, d.outbox), n) != RowIn(w.t, n);
      id :| Known(w, id) && ServerId(w, id) == n;
    }
  }
}
