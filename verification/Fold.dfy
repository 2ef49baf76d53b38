/**
 Folding edits and checks into a create that is still queued on the client
 (frontend/src/queries.ts) against what the server would have made of them one by
 one (ports/rest/v1/handlers_items.go, lists/service.go, adapters/db/items.go).
 */
module Fold {

  import opened Results
  import opened ListRules
  import opened Store
  import Text

  // ---------------------------------------------------------------- request bodies

  /** The body of an add; None is a key that is absent, Some(None) an explicit null note. */
  datatype AddPayload = AddPayload(
    name: string,
    quantity: Option<int>,
    unit: Option<string>,
    note: Option<Option<string>>,
    checked: Option<bool>)

  datatype EditBody = EditBody(
    name: Option<string>,
    quantity: Option<int>,
    unit: Option<string>,
    note: Option<Option<string>>)

  datatype Change = Edit(body: EditBody) | Check | Uncheck

  function Override<T>(was: Option<T>, now: Option<T>): Option<T> {
    if now.Some? then now else was
  }

  /** { ...payload, ...body }, or { ...payload, checked } for a check or uncheck. */
  function Merge(p: AddPayload, change: Change): AddPayload {
    match change
    case Edit(body) =>
      AddPayload(if body.name.Some? then body.name.value else p.name,
                 Override(p.quantity, body.quantity), Override(p.unit, body.unit),
                 Override(p.note, body.note), p.checked)
    case Check => p.(checked := Some(true))
    case Uncheck => p.(checked := Some(false))
  }

  /** A folded change is in the payload, over what was there; what it does not give stays. */
  lemma MergedPayload(p: AddPayload, body: EditBody)
    ensures var q := Merge(p, Edit(body));
            && (if body.name.Some? then Some(q.name) == body.name else q.name == p.name)
            && (if body.quantity.Some? then q.quantity == body.quantity else q.quantity == p.quantity)
            && (if body.unit.Some? then q.unit == body.unit else q.unit == p.unit)
            && (if body.note.Some? then q.note == body.note else q.note == p.note) && q.checked == p.checked
    ensures Merge(p, Check) == AddPayload(p.name, p.quantity, p.unit, p.note, Some(true))
    ensures Merge(p, Uncheck) == AddPayload(p.name, p.quantity, p.unit, p.note, Some(false))
  {
  }

  function FoldAll(p: AddPayload, changes: seq<Change>): AddPayload {
    if changes == [] then p
    else Merge(FoldAll(p, changes[..|changes| - 1]), changes[|changes| - 1])
  }

  // ---------------------------------------------------------------- what the handlers make of them

  function AddInput(p: AddPayload): ItemInput {
    ItemInput(
      p.name,
      if p.quantity.Some? then p.quantity.value else 0,
      if p.unit.Some? then p.unit.value else "",
      if p.note.Some? then p.note.value else None,
      p.checked == Some(true))
  }

  function EditUpdate(body: EditBody): ItemUpdate {
    ItemUpdate(body.name, body.quantity, body.unit, body.note.Some?,
               if body.note.Some? then body.note.value else None)
  }

  function CallFor(change: Change, id: Id, list: Id, actor: User, now: Time): Call {
    match change
    case Edit(body) => UpdateItem(id, list, EditUpdate(body), now)
    case Check => CheckItem(id, list, actor, now)
    case Uncheck => UncheckItem(id, list, now)
  }

  predicate ValidAdd(p: AddPayload) {
    CleanInput(AddInput(p)).Ok?
  }

  predicate ValidChange(change: Change) {
    change.Edit? ==> CleanUpdate(EditUpdate(change.body)).Ok?
  }

  /** Adding the original and then applying each change, at the given times. */
  ghost function Replay(t: Tables, id: Id, list: Id, p: AddPayload, changes: seq<Change>, actor: User,
                        now: Time, times: seq<Time>): Tables
    requires |times| == |changes|
    decreases changes
  {
    if changes == [] then After(t, AddItem(id, list, AddInput(p), actor, now))
    else
      var last := |changes| - 1;
      After(Replay(t, id, list, p, changes[..last], actor, now, times[..last]),
            CallFor(changes[last], id, list, actor, times[last]))
  }

  /** The same in everything but the moments recorded. */
  predicate SameContent(a: ItemRow, b: ItemRow) {
    && a.listId == b.listId && a.name == b.name && a.quantity == b.quantity && a.unit == b.unit && a.note == b.note
    && a.checked == b.checked && a.addedBy == b.addedBy && a.boughtBy == b.boughtBy
    && a.checkedAt.Some? == b.checkedAt.Some? && a.deletedAt == b.deletedAt
  }

  function Created(p: AddPayload, list: Id, actor: User, now: Time): ItemRow
    requires ValidAdd(p)
  {
    var i := CleanInput(AddInput(p)).value;
    NewItem(list, i.name, i.quantity, i.unit, i.note, i.checked, actor, now)
  }

  // ---------------------------------------------------------------- equivalence

  /** One valid change leaves a valid create, and the same item as if the server had applied it. */
  lemma MergeMatchesServer(t: Tables, id: Id, list: Id, p: AddPayload, change: Change, actor: User, now: Time, at: Time)
    requires ValidAdd(p) && ValidChange(change)
    requires Live(t, list, id) && SameContent(t.items[id], Created(p, list, actor, now))
    ensures ValidAdd(Merge(p, change))
    ensures var t' := After(t, CallFor(change, id, list, actor, at));
            && Live(t', list, id) && SameContent(t'.items[id], Created(Merge(p, change), list, actor, now))
            && t' == t.(items := t.items[id := t'.items[id]])
  {
    if change.Edit? {
      EditMatchesServer(p, change.body, t.items[id], list, actor, now, at);
    } else {
      CheckMatchesServer(t, id, list, p, change, actor, now, at);
    }
    var t' := After(t, CallFor(change, id, list, actor, at));
    assert t'.items == t.items[id := t'.items[id]];
  }

  lemma CheckMatchesServer(t: Tables, id: Id, list: Id, p: AddPayload, change: Change, actor: User, now: Time, at: Time)
    requires ValidAdd(p) && !change.Edit?
    requires Live(t, list, id) && SameContent(t.items[id], Created(p, list, actor, now))
    ensures ValidAdd(Merge(p, change))
    ensures var t' := After(t, CallFor(change, id, list, actor, at));
            Live(t', list, id) && SameContent(t'.items[id], Created(Merge(p, change), list, actor, now))
  {
    var q := Merge(p, change);
    assert CleanInput(AddInput(q)) == Ok(CleanInput(AddInput(p)).value.(checked := q.checked == Some(true)));
  }

  lemma EditMatchesServer(p: AddPayload, body: EditBody, row: ItemRow, list: Id, actor: User, now: Time, at: Time)
    requires ValidAdd(p) && ValidChange(Edit(body)) && SameContent(row, Created(p, list, actor, now))
    ensures ValidAdd(Merge(p, Edit(body)))
    ensures SameContent(Patched(row, CleanUpdate(EditUpdate(body)).value, at),
                        Created(Merge(p, Edit(body)), list, actor, now))
  {
    EditedPayload(p, body);
    var q, u, was := CleanInput(AddInput(Merge(p, Edit(body)))).value, CleanUpdate(EditUpdate(body)).value,
      CleanInput(AddInput(p)).value;
    assert q == Overlaid(was, u);
  }

  /** The cleaned fields of an update laid over those of a create. */
  function Overlaid(i: ItemInput, u: ItemUpdate): ItemInput {
    i.(name := if u.name.Some? then u.name.value else i.name,
       quantity := if u.quantity.Some? then u.quantity.value else i.quantity,
       unit := if u.unit.Some? then u.unit.value else i.unit,
       note := if u.noteSet then u.note else i.note)
  }

  /** Cleaning and merging commute: validation looks at one field at a time. */
  lemma EditedPayload(p: AddPayload, body: EditBody)
    requires ValidAdd(p) && ValidChange(Edit(body))
    ensures CleanInput(AddInput(Merge(p, Edit(body))))
            == Ok(Overlaid(CleanInput(AddInput(p)).value, CleanUpdate(EditUpdate(body)).value))
  {
    var was, now, u := AddInput(p), AddInput(Merge(p, Edit(body))), EditUpdate(body);
    assert now.name == (if u.name.Some? then u.name.value else was.name);
    assert now.quantity == (if u.quantity.Some? then u.quantity.value else was.quantity);
    assert now.unit == (if u.unit.Some? then u.unit.value else was.unit);
    assert now.note == (if u.noteSet then u.note else was.note) && now.checked == was.checked;
    assert ValidateName(now.name).Ok? && NormalizeQuantity(now.quantity).Ok?;
    assert ValidateUnit(now.unit).Ok? && ValidateNote(now.note).Ok?;
  }

  /**
   For every valid add and every finite sequence of individually valid changes, the
   create they are folded into is valid, and it stores the same item as adding the
   original and applying each change as the same user. Nothing else is touched
   either way.
   */
  lemma FoldEquivalence(
    t: Tables, id: Id, list: Id, p: AddPayload, changes: seq<Change>, actor: User,
    now: Time, times: seq<Time>, later: Time)
    requires |times| == |changes| && list in t.lists && id !in t.items
    requires ValidAdd(p)
    requires forall i :: 0 <= i < |changes| ==> ValidChange(changes[i])
    ensures ValidAdd(FoldAll(p, changes))
    ensures var folded := After(t, AddItem(id, list, AddInput(FoldAll(p, changes)), actor, later));
            var replayed := Replay(t, id, list, p, changes, actor, now, times);
            && Live(folded, list, id) && Live(replayed, list, id)
            && SameContent(folded.items[id], replayed.items[id])
            && folded == t.(items := t.items[id := folded.items[id]])
            && replayed == t.(items := t.items[id := replayed.items[id]])
            && folded.items[id].addedBy == Some(actor)
  {
    FoldIsCreated(t, id, list, p, changes, actor, now, times);
    var q := FoldAll(p, changes);
    var folded := After(t, AddItem(id, list, AddInput(q), actor, later));
    assert folded.items[id] == Created(q, list, actor, later);
    assert SameContent(Created(q, list, actor, later), Created(q, list, actor, now));
  }

  lemma {:induction false} FoldIsCreated(
    t: Tables, id: Id, list: Id, p: AddPayload, changes: seq<Change>, actor: User, now: Time, times: seq<Time>)
    requires |times| == |changes| && list in t.lists && id !in t.items
    requires ValidAdd(p)
    requires forall i :: 0 <= i < |changes| ==> ValidChange(changes[i])
    ensures ValidAdd(FoldAll(p, changes))
    ensures var replayed := Replay(t, id, list, p, changes, actor, now, times);
            && Live(replayed, list, id)
            && SameContent(replayed.items[id], Created(FoldAll(p, changes), list, actor, now))
            && replayed == t.(items := t.items[id := replayed.items[id]])
    decreases changes
  {
    if changes == [] {
    } else {
      var last := |changes| - 1;
      FoldIsCreated(t, id, list, p, changes[..last], actor, now, times[..last]);
      var before := Replay(t, id, list, p, changes[..last], actor, now, times[..last]);
      assert FoldAll(p, changes) == Merge(FoldAll(p, changes[..last]), changes[last]);
      MergeMatchesServer(before, id, list, FoldAll(p, changes[..last]), changes[last], actor, now, times[last]);
      OverwriteTwice(t, before, Replay(t, id, list, p, changes, actor, now, times), id);
    }
  }

  lemma OverwriteTwice(t: Tables, before: Tables, after: Tables, id: Id)
    requires id in before.items && before == t.(items := t.items[id := before.items[id]])
    requires id in after.items && after == before.(items := before.items[id := after.items[id]])
    ensures after == t.(items := t.items[id := after.items[id]])
  {
    assert after.items == t.items[id := after.items[id]];
  }

  // ---------------------------------------------------------------- acceptance

  // the largest format: int32 allows
  const MAX_QUANTITY := 0x7FFF_FFFF

  /** The request schema bounds a name as it is sent, before the service trims it. */
  predicate SchemaName(name: string) {
    1 <= |name| <= MAX_NAME_LENGTH
  }

  predicate SchemaQuantity(quantity: int) {
    1 <= quantity <= MAX_QUANTITY
  }

  predicate SchemaNote(note: Option<string>) {
    note.Some? ==> |note.value| <= MAX_NOTE_LENGTH
  }

  /** What the request validator lets through to the AddItem handler. */
  predicate SchemaAdd(p: AddPayload) {
    && SchemaName(p.name)
    && (p.quantity.Some? ==> SchemaQuantity(p.quantity.value))
    && (p.unit.Some? ==> p.unit.value in Units())
    && (p.note.Some? ==> SchemaNote(p.note.value))
  }

  /** What it lets through to the UpdateItem handler. */
  predicate SchemaEdit(body: EditBody) {
    && (body.name.Some? ==> SchemaName(body.name.value))
    && (body.quantity.Some? ==> SchemaQuantity(body.quantity.value))
    && (body.unit.Some? ==> body.unit.value in Units())
    && (body.note.Some? ==> SchemaNote(body.note.value))
  }

  /** The bounds the schema itself spells out. */
  lemma SchemaBounds(p: AddPayload, body: EditBody)
    ensures SchemaAdd(p) <==>
              && 1 <= |p.name| <= 200 && (p.quantity.Some? ==> 1 <= p.quantity.value < 0x8000_0000)
              && (p.unit.Some? ==> p.unit.value in Units())
              && (p.note.Some? && p.note.value.Some? ==> |p.note.value.value| <= 500)
    ensures SchemaEdit(body) <==>
              && (body.name.Some? ==> 1 <= |body.name.value| <= 200)
              && (body.quantity.Some? ==> 1 <= body.quantity.value < 0x8000_0000)
              && (body.unit.Some? ==> body.unit.value in Units())
              && (body.note.Some? && body.note.value.Some? ==> |body.note.value.value| <= 500)
  {
  }

  /** Accepted by the server: by the request validator, and then by the service. */
  predicate AcceptedAdd(p: AddPayload) {
    SchemaAdd(p) && ValidAdd(p)
  }

  predicate AcceptedEdit(body: EditBody) {
    SchemaEdit(body) && ValidChange(Edit(body))
  }

  predicate AcceptedChange(change: Change) {
    change.Edit? ==> AcceptedEdit(change.body)
  }

  /** Behind the schema, the service refuses nothing but a name of white space. */
  lemma AcceptedExactly(p: AddPayload, body: EditBody)
    ensures AcceptedAdd(p) <==> SchemaAdd(p) && Text.TrimSpace(p.name) != ""
    ensures AcceptedEdit(body) <==> SchemaEdit(body) && (body.name.Some? ==> Text.TrimSpace(body.name.value) != "")
  {
    AcceptedAddExactly(p);
    AcceptedEditExactly(body);
  }

  lemma AcceptedAddExactly(p: AddPayload)
    ensures AcceptedAdd(p) <==> SchemaAdd(p) && Text.TrimSpace(p.name) != ""
  {
    Text.TrimSpaceShortens(p.name);
    if p.note.Some? && p.note.value.Some? {
      Text.TrimSpaceShortens(p.note.value.value);
    }
  }

  lemma AcceptedEditExactly(body: EditBody)
    ensures AcceptedEdit(body) <==> SchemaEdit(body) && (body.name.Some? ==> Text.TrimSpace(body.name.value) != "")
  {
    if body.name.Some? {
      Text.TrimSpaceShortens(body.name.value);
    }
    if body.note.Some? && body.note.value.Some? {
      Text.TrimSpaceShortens(body.note.value.value);
    }
  }

  /** A folded edit is accepted with the create exactly when the server would accept it on its own. */
  lemma FoldAcceptsExactly(p: AddPayload, body: EditBody)
    requires AcceptedAdd(p)
    ensures AcceptedAdd(Merge(p, Edit(body))) <==> AcceptedEdit(body)
  {
    AcceptedExactly(p, body);
    AcceptedExactly(Merge(p, Edit(body)), body);
  }

  function NoEdit(): EditBody {
    EditBody(None, None, None, None)
  }

  /** What two edits, one after the other, give for each field. */
  function LaidOver(before: EditBody, body: EditBody): EditBody {
    EditBody(Override(before.name, body.name), Override(before.quantity, body.quantity),
             Override(before.unit, body.unit), Override(before.note, body.note))
  }

  /** The last value the edits give for each field. */
  function LastGiven(changes: seq<Change>): EditBody {
    if changes == [] then NoEdit()
    else
      var before, last := LastGiven(changes[..|changes| - 1]), changes[|changes| - 1];
      if last.Edit? then LaidOver(before, last.body) else before
  }

  lemma {:induction false} FoldIsLastGiven(p: AddPayload, changes: seq<Change>)
    ensures FoldAll(p, changes).(checked := p.checked) == Merge(p, Edit(LastGiven(changes)))
    decreases changes
  {
    if changes == [] {
    } else {
      FoldIsLastGiven(p, changes[..|changes| - 1]);
    }
  }

  /**
   Whatever is folded into an acceptable create, refusable edits included, it is
   accepted exactly when the last value given for each field is. Every single edit
   being acceptable is enough for that.
   */
  lemma FoldedCreateIsAccepted(p: AddPayload, changes: seq<Change>)
    requires AcceptedAdd(p)
    ensures AcceptedAdd(FoldAll(p, changes)) <==> AcceptedEdit(LastGiven(changes))
    ensures (forall i :: 0 <= i < |changes| ==> AcceptedChange(changes[i])) ==> AcceptedAdd(FoldAll(p, changes))
  {
    var folded := FoldAll(p, changes);
    FoldIsLastGiven(p, changes);
    FoldAcceptsExactly(p, LastGiven(changes));
    AcceptedExactly(folded, LastGiven(changes));
    AcceptedExactly(folded.(checked := p.checked), LastGiven(changes));
    if forall i :: 0 <= i < |changes| ==> AcceptedChange(changes[i]) {
      LastGivenIsAccepted(changes);
    }
  }

  lemma {:induction false} LastGivenIsAccepted(changes: seq<Change>)
    requires forall i :: 0 <= i < |changes| ==> AcceptedChange(changes[i])
    ensures AcceptedEdit(LastGiven(changes))
    decreases changes
  {
    var p := AddPayload("", None, None, None, None);
    AcceptedExactly(p, LastGiven(changes));
    if changes == [] {
    } else {
      var last := |changes| - 1;
      LastGivenIsAccepted(changes[..last]);
      AcceptedExactly(p, LastGiven(changes[..last]));
      if changes[last].Edit? {
        AcceptedExactly(p, changes[last].body);
      }
    }
  }

  // ---------------------------------------------------------------- refusals

  /** What a request leaves behind: nothing changes unless the validator lets it through. */
  ghost function PostAdd(t: Tables, id: Id, list: Id, p: AddPayload, actor: User, now: Time): Tables {
    if SchemaAdd(p) then After(t, AddItem(id, list, AddInput(p), actor, now)) else t
  }

  ghost function PatchItem(t: Tables, id: Id, list: Id, body: EditBody, now: Time): Tables {
    if SchemaEdit(body) then After(t, UpdateItem(id, list, EditUpdate(body), now)) else t
  }

  /**
   An edit the server refuses leaves an item it already has alone. Folded into a queued
   create it takes the create down with it, and exactly such an edit does.
   */
  lemma RefusedEditTakesTheCreate(
    t: Tables, id: Id, list: Id, p: AddPayload, body: EditBody, actor: User, now: Time, later: Time)
    requires AcceptedAdd(p) && list in t.lists && id !in t.items
    ensures var added := PostAdd(t, id, list, p, actor, now);
            var folded := PostAdd(t, id, list, Merge(p, Edit(body)), actor, later);
            && Live(added, list, id) && Live(PatchItem(added, id, list, body, later), list, id)
            && (!AcceptedEdit(body) ==> PatchItem(added, id, list, body, later) == added)
            && (folded == t <==> !AcceptedEdit(body)) && (id in folded.items <==> AcceptedEdit(body))
  {
    FoldAcceptsExactly(p, body);
  }
}
