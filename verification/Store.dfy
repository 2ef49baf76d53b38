/**
 The shopping lists as the database holds them (adapters/db/items.go,
 adapters/db/lists.go) and the service over them (lists/service.go).

 Each SQL statement is one atomic step on the tables; CopyList is one transaction.
 UUIDs are numbers, compared as Postgres compares them, and timestamps are whole
 microseconds, the resolution of timestamptz.
 */
module Store {

  import opened Results
  import opened ListRules
  import Maps
  import Ordering

  type Id = nat
  type User = nat
  type Time = int

  datatype ItemRow = ItemRow(
    listId: Id,
    name: string,
    quantity: int,
    unit: string,
    note: Option<string>,
    checked: bool,
    checkedAt: Option<Time>,
    addedBy: Option<User>,
    boughtBy: Option<User>,
    createdAt: Time,
    updatedAt: Time,
    deletedAt: Option<Time>)

  datatype ListRow = ListRow(name: string, createdBy: Option<User>, createdAt: Time, updatedAt: Time)

  /** A login subject: the text of a UUID, or any other string a provider may use. */
  datatype Subject = UuidText(id: User) | Named(text: string)

  datatype MemberRow = MemberRow(userId: User, email: string, name: string)

  datatype UserRow = UserRow(username: string, name: string, email: string)

  datatype Tables = Tables(
    lists: map<Id, ListRow>,
    items: map<Id, ItemRow>,
    members: map<Subject, MemberRow>,
    users: map<User, UserRow>)

  function NoTables(): Tables {
    Tables(map[], map[], map[], map[])
  }

  /** The unique index on members.user_id */
  ghost predicate UniqueUserIds(members: map<Subject, MemberRow>) {
    forall s, r :: s in members && r in members && members[s].userId == members[r].userId ==> s == r
  }

  /** The item is there, on that list, and not deleted. */
  predicate Live(t: Tables, list: Id, id: Id) {
    id in t.items && t.items[id].listId == list && t.items[id].deletedAt.None?
  }

  // ---------------------------------------------------------------- item statements

  /** A missing list is a foreign-key violation, a repeated id a primary-key one. */
  function InsertItem(t: Tables, id: Id, row: ItemRow): Result<Tables> {
    if row.listId !in t.lists then Err(NotFound)
    else if id in t.items then Err(Conflict)
    else Ok(t.(items := t.items[id := row]))
  }

  function NewItem(list: Id, name: string, quantity: int, unit: string, note: Option<string>, checked: bool,
                   addedBy: User, now: Time): ItemRow {
    ItemRow(list, name, quantity, unit, note, checked, if checked then Some(now) else None,
            Some(addedBy), if checked then Some(addedBy) else None, now, now, None)
  }

  function ReadItem(t: Tables, list: Id, id: Id): Result<ItemRow> {
    if Live(t, list, id) then Ok(t.items[id]) else Err(NotFound)
  }

  /** A partial update: None leaves a column alone; noteSet tells clearing the note from leaving it. */
  datatype ItemUpdate = ItemUpdate(
    name: Option<string>,
    quantity: Option<int>,
    unit: Option<string>,
    noteSet: bool,
    note: Option<string>)

  function Patched(row: ItemRow, u: ItemUpdate, now: Time): ItemRow {
    row.(
      name := if u.name.Some? then u.name.value else row.name,
      quantity := if u.quantity.Some? then u.quantity.value else row.quantity,
      unit := if u.unit.Some? then u.unit.value else row.unit,
      note := if u.noteSet then u.note else row.note,
      updatedAt := now)
  }

  function UpdateItemRow(t: Tables, list: Id, id: Id, u: ItemUpdate, now: Time): Result<Tables> {
    if Live(t, list, id) then Ok(t.(items := t.items[id := Patched(t.items[id], u, now)])) else Err(NotFound)
  }

  function DeleteItemRow(t: Tables, list: Id, id: Id, now: Time): Result<Tables> {
    if Live(t, list, id)
    then Ok(t.(items := t.items[id := t.items[id].(deletedAt := Some(now), updatedAt := now)]))
    else Err(NotFound)
  }

  function RestoreItemRow(t: Tables, list: Id, id: Id, now: Time): Result<Tables> {
    if id in t.items && t.items[id].listId == list
    then Ok(t.(items := t.items[id := t.items[id].(deletedAt := None, updatedAt := now)]))
    else Err(NotFound)
  }

  function SetChecked(t: Tables, list: Id, id: Id, checked: bool, checkedAt: Option<Time>, checkedBy: Option<User>,
                      now: Time): Result<Tables> {
    if Live(t, list, id)
    then
      var row := t.items[id].(checked := checked, checkedAt := checkedAt, boughtBy := checkedBy, updatedAt := now);
      Ok(t.(items := t.items[id := row]))
    else Err(NotFound)
  }

  // ---------------------------------------------------------------- list statements

  function InsertList(t: Tables, id: Id, name: string, actor: User, now: Time): Result<Tables> {
    if id in t.lists then Err(Conflict)
    else Ok(t.(lists := t.lists[id := ListRow(name, Some(actor), now, now)]))
  }

  function RenameListRow(t: Tables, id: Id, name: string, now: Time): Result<Tables> {
    if id !in t.lists then Err(NotFound)
    else Ok(t.(lists := t.lists[id := t.lists[id].(name := name, updatedAt := now)]))
  }

  /** The items of a deleted list go with it. */
  ghost function DeleteListRow(t: Tables, id: Id): Result<Tables> {
    if id !in t.lists then Err(NotFound)
    else Ok(t.(lists := t.lists - {id}, items := Maps.Filter(t.items, (row: ItemRow) => row.listId != id)))
  }

  // ---------------------------------------------------------------- copying a list

  function CreatedAt(items: map<Id, ItemRow>): Id -> int {
    id => if id in items then items[id].createdAt else 0
  }

  function LiveIds(items: map<Id, ItemRow>, list: Id): set<Id> {
    set id | id in items && items[id].listId == list && items[id].deletedAt.None?
  }

  /** The order ListItems shows a list's items in: by created_at, then id. */
  ghost function DisplayOrder(items: map<Id, ItemRow>, list: Id): (r: seq<Id>)
    ensures Ordering.Ordered(CreatedAt(items), r) && Ordering.Elements(r) == LiveIds(items, list)
    ensures Ordering.Distinct(r) && forall i :: 0 <= i < |r| ==> r[i] in items
  {
    var r := Ordering.InOrder(CreatedAt(items), LiveIds(items, list));
    assert forall i :: 0 <= i < |r| ==> r[i] in Ordering.Elements(r);
    r
  }

  function CopyOf(row: ItemRow, list: Id, actor: User, now: Time, number: int): ItemRow {
    ItemRow(list, row.name, row.quantity, row.unit, row.note, false, None, Some(actor), None, now + number, now, None)
  }

  /** Inserts copies of `source`'s rows, numbered from 1 in that order, under the new ids. */
  function InsertCopies(items: map<Id, ItemRow>, source: seq<Id>, ids: seq<Id>, list: Id, actor: User, now: Time)
    : (r: map<Id, ItemRow>)
    requires |ids| == |source|
    requires forall id :: id in source ==> id in items
    ensures forall id :: id in items && id !in ids ==> id in r && r[id] == items[id]
    ensures forall id :: id in r <==> id in items || id in ids
  {
    if source == [] then items
    else
      var last := |source| - 1;
      var rest := InsertCopies(items, source[..last], ids[..last], list, actor, now);
      assert ids == ids[..last] + [ids[last]];
      rest[ids[last] := CopyOf(items[source[last]], list, actor, now, last + 1)]
  }

  predicate Unused(items: map<Id, ItemRow>, ids: seq<Id>) {
    Ordering.Distinct(ids) && forall i :: 0 <= i < |ids| ==> ids[i] !in items
  }

  /** `ids` are the ids the database generates for the copied rows. */
  ghost function CopyListRows(t: Tables, source: Id, newId: Id, name: string, ids: seq<Id>, actor: User, now: Time)
    : Result<Tables> {
    var order := DisplayOrder(t.items, source);
    if source !in t.lists then Err(NotFound)
    else if newId in t.lists || |ids| != |order| || !Unused(t.items, ids) then Err(Conflict)
    else
      Ok(t.(lists := t.lists[newId := ListRow(name, Some(actor), now, now)],
            items := InsertCopies(t.items, order, ids, newId, actor, now)))
  }

  // ---------------------------------------------------------------- the service

  datatype ItemInput = ItemInput(name: string, quantity: int, unit: string, note: Option<string>, checked: bool)

  /** The input after validation, in the order the service validates it. */
  function CleanInput(input: ItemInput): Result<ItemInput> {
    var name := ValidateName(input.name);
    var quantity := NormalizeQuantity(input.quantity);
    var unit := ValidateUnit(input.unit);
    var note := ValidateNote(input.note);
    if name.Err? then Err(name.error)
    else if quantity.Err? then Err(quantity.error)
    else if unit.Err? then Err(unit.error)
    else if note.Err? then Err(note.error)
    else Ok(ItemInput(name.value, quantity.value, unit.value, note.value, input.checked))
  }

  function CleanUpdate(u: ItemUpdate): Result<ItemUpdate> {
    var name := if u.name.Some? then ValidateName(u.name.value) else Ok("");
    var unit := if u.unit.Some? then ValidateUnit(u.unit.value) else Ok("");
    var note := if u.noteSet then ValidateNote(u.note) else Ok(None);
    if name.Err? then Err(name.error)
    else if u.quantity.Some? && u.quantity.value < 1 then Err(Invalid("quantity", "quantity must be at least 1"))
    else if unit.Err? then Err(unit.error)
    else if note.Err? then Err(note.error)
    else Ok(u.(name := if u.name.Some? then Some(name.value) else None,
               unit := if u.unit.Some? then Some(unit.value) else None,
               note := if u.noteSet then note.value else u.note))
  }

  /** A statement's outcome as the tables it leaves behind. */
  function Left(t: Tables, r: Result<Tables>): Tables {
    if r.Ok? then r.value else t
  }

  /** A service call; the fields after the source's own arguments are what the database and the clock contribute. */
  datatype Call =
    | CreateList(id: Id, name: string, actor: User, now: Time)
    | RenameList(id: Id, name: string, now: Time)
    | DeleteList(id: Id)
    | CopyList(source: Id, newId: Id, name: string, actor: User, ids: seq<Id>, now: Time)
    | AddItem(id: Id, list: Id, input: ItemInput, actor: User, now: Time)
    | UpdateItem(id: Id, list: Id, update: ItemUpdate, now: Time)
    | DeleteItem(id: Id, list: Id, now: Time)
    | RestoreItem(id: Id, list: Id, now: Time)
    | CheckItem(id: Id, list: Id, actor: User, now: Time)
    | UncheckItem(id: Id, list: Id, now: Time)

  function ServiceAddItem(t: Tables, id: Id, list: Id, input: ItemInput, actor: User, now: Time): Result<Tables> {
    var clean := CleanInput(input);
    if clean.Err? then Err(clean.error)
    else
      var i := clean.value;
      InsertItem(t, id, NewItem(list, i.name, i.quantity, i.unit, i.note, i.checked, actor, now))
  }

  function ServiceUpdateItem(t: Tables, id: Id, list: Id, update: ItemUpdate, now: Time): Result<Tables> {
    var clean := CleanUpdate(update);
    if clean.Err? then Err(clean.error) else UpdateItemRow(t, list, id, clean.value, now)
  }

  /** Reads the item and writes only when its state changes. */
  function ServiceSetChecked(t: Tables, id: Id, list: Id, checked: bool, actor: User, now: Time): Result<Tables> {
    var read := ReadItem(t, list, id);
    if read.Err? then Err(read.error)
    else if read.value.checked == checked then Ok(t)
    else SetChecked(t, list, id, checked, if checked then Some(now) else None, if checked then Some(actor) else None, now)
  }

  ghost function ServiceCopyList(t: Tables, source: Id, newId: Id, name: string, actor: User, ids: seq<Id>, now: Time)
    : Result<Tables> {
    if source !in t.lists then Err(NotFound)
    else
      var clean := if name == "" then Ok(CopyListName(t.lists[source].name)) else ValidateName(name);
      if clean.Err? then Err(clean.error) else CopyListRows(t, source, newId, clean.value, ids, actor, now)
  }

  ghost function Perform(t: Tables, call: Call): Result<Tables> {
    match call
    case CreateList(id, name, actor, now) =>
      var clean := ValidateName(name);
      if clean.Err? then Err(clean.error) else InsertList(t, id, clean.value, actor, now)
    case RenameList(id, name, now) =>
      var clean := ValidateName(name);
      if clean.Err? then Err(clean.error) else RenameListRow(t, id, clean.value, now)
    case DeleteList(id) => DeleteListRow(t, id)
    case CopyList(source, newId, name, actor, ids, now) => ServiceCopyList(t, source, newId, name, actor, ids, now)
    case AddItem(id, list, input, actor, now) => ServiceAddItem(t, id, list, input, actor, now)
    case UpdateItem(id, list, update, now) => ServiceUpdateItem(t, id, list, update, now)
    case DeleteItem(id, list, now) => DeleteItemRow(t, list, id, now)
    case RestoreItem(id, list, now) => RestoreItemRow(t, list, id, now)
    case CheckItem(id, list, actor, now) => ServiceSetChecked(t, id, list, true, actor, now)
    case UncheckItem(id, list, now) => ServiceSetChecked(t, id, list, false, 0, now)
  }

  ghost function After(t: Tables, call: Call): Tables {
    Left(t, Perform(t, call))
  }

  ghost function History(t: Tables, calls: seq<Call>): Tables
    decreases calls
  {
    if calls == [] then t else History(After(t, calls[0]), calls[1..])
  }
}
