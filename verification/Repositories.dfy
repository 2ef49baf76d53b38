/**
 The repositories and the service as objects over one database: statements update
 the tables in place, and the service validates, reads and writes step by step.
 */
module Repositories {

  import opened Results
  import opened ListRules
  import opened Store
  import opened Identity
  import opened ItemQuery
  import Maps
  import Ordering

  class Database {
    var lists: map<Id, ListRow>
    var items: map<Id, ItemRow>
    var members: map<Subject, MemberRow>
    var users: map<User, UserRow>

    function Snapshot(): Tables
      reads this
    {
      Tables(lists, items, members, users)
    }

    constructor ()
      ensures Snapshot() == NoTables()
    {
      lists, items, members, users := map[], map[], map[], map[];
    }
  }

  /** A call's answer: the item read back from what it left behind, or why it left nothing. */
  function Answer(r: Result<Tables>, list: Id, id: Id, members: seq<Subject>): Result<ItemView> {
    if r.Err? then Err(r.error) else ReadView(r.value, list, id, members)
  }

  // ---------------------------------------------------------------- statements on many rows

  /** UPDATE ... SET ... WHERE: the new table and the rows affected. */
  method UpdateWhere<Row>(table: map<Id, Row>, where: Row -> bool, change: Row -> Row)
    returns (updated: map<Id, Row>, affected: set<Id>)
    ensures updated.Keys == table.Keys
    ensures forall k :: k in table ==> updated[k] == if where(table[k]) then change(table[k]) else table[k]
    ensures forall k :: k in affected <==> k in table && where(table[k])
  {
    var todo := table.Keys;
    updated, affected := table, {};
    while todo != {}
      invariant todo <= table.Keys == updated.Keys && affected <= table.Keys - todo
      invariant forall k :: k in table && k in todo ==> updated[k] == table[k]
      invariant forall k :: k in table && k !in todo ==>
        && (k in affected <==> where(table[k]))
        && updated[k] == if where(table[k]) then change(table[k]) else table[k]
    {
      var k :| k in todo;
      todo := todo - {k};
      if where(updated[k]) {
        updated, affected := updated[k := change(updated[k])], affected + {k};
      }
    }
  }

  /** DELETE ... WHERE: what is left of the table. */
  method DeleteWhere<Key, Row>(table: map<Key, Row>, where: Row -> bool) returns (left: map<Key, Row>)
    ensures forall k :: k in left <==> k in table && !where(table[k])
    ensures forall k :: k in left ==> left[k] == table[k]
  {
    var todo := table.Keys;
    left := table;
    while todo != {}
      invariant todo <= left.Keys <= table.Keys
      invariant forall k :: k in left ==> left[k] == table[k]
      invariant forall k :: k in table && k !in todo ==> (k in left <==> !where(table[k]))
    {
      var k :| k in todo;
      todo := todo - {k};
      if where(left[k]) {
        left := left - {k};
      }
    }
  }

  class ListsRepository {
    const db: Database

    constructor (db: Database)
      ensures this.db == db
    {
      this.db := db;
    }

    /** The names the join finds for an id; `members` is how the database reads the table. */
    method NamesFor(id: Option<User>, members: seq<Subject>) returns (names: seq<Option<string>>)
      ensures names == JoinedNames(db.members, members, id)
    {
      names := [];
      for i := 0 to |members|
        invariant names + MatchingNames(db.members, members[i..], id) == MatchingNames(db.members, members, id)
      {
        assert members[i..][1..] == members[i + 1..];
        if members[i] in db.members && id == Some(db.members[members[i]].userId) {
          names := names + [Some(db.members[members[i]].name)];
        }
      }
      if names == [] {
        names := [None];
      }
    }

    method JoinRows(id: Id, members: seq<Subject>) returns (views: seq<ItemView>)
      requires id in db.items
      ensures views == RowsOf(db.Snapshot(), id, members)
    {
      var row := db.items[id];
      var adders := NamesFor(row.addedBy, members);
      var buyers := NamesFor(row.boughtBy, members);
      return WithNames(row, adders, buyers);
    }

    /** Reads the first joined row; here and below, `members` is how the database reads that table. */
    method Item(list: Id, id: Id, members: seq<Subject>) returns (r: Result<ItemView>)
      ensures r == ReadView(db.Snapshot(), list, id, members)
    {
      if id !in db.items || db.items[id].listId != list || db.items[id].deletedAt.Some? {
        return Err(NotFound);
      }
      var views := JoinRows(id, members);
      return Ok(views[0]);
    }

    method AddItem(id: Id, list: Id, name: string, quantity: int, unit: string, note: Option<string>, checked: bool,
                   addedBy: User, now: Time, members: seq<Subject>) returns (r: Result<ItemView>)
      modifies db`items
      ensures var outcome := InsertItem(old(db.Snapshot()), id, NewItem(list, name, quantity, unit, note, checked, addedBy, now));
              db.Snapshot() == Left(old(db.Snapshot()), outcome) && r == Answer(outcome, list, id, members)
    {
      var checkedAt, boughtBy := None, None;
      if checked {
        checkedAt := Some(now);
        boughtBy := Some(addedBy);
      }
      if list !in db.lists {
        return Err(NotFound);
      }
      if id in db.items {
        return Err(Conflict);
      }
      db.items := db.items[id := ItemRow(list, name, quantity, unit, note, checked, checkedAt, Some(addedBy), boughtBy,
                                         now, now, None)];
      r := Item(list, id, members);
    }

    method UpdateItem(id: Id, list: Id, update: ItemUpdate, now: Time, members: seq<Subject>) returns (r: Result<ItemView>)
      modifies db`items
      ensures var outcome := UpdateItemRow(old(db.Snapshot()), list, id, update, now);
              db.Snapshot() == Left(old(db.Snapshot()), outcome) && r == Answer(outcome, list, id, members)
    {
      if id !in db.items || db.items[id].listId != list || db.items[id].deletedAt.Some? {
        return Err(NotFound);
      }
      var row := db.items[id].(updatedAt := now);
      if update.name.Some? {
        row := row.(name := update.name.value);
      }
      if update.quantity.Some? {
        row := row.(quantity := update.quantity.value);
      }
      if update.unit.Some? {
        row := row.(unit := update.unit.value);
      }
      if update.noteSet {
        row := row.(note := update.note);
      }
      db.items := db.items[id := row];
      r := Item(list, id, members);
    }

    method DeleteItem(id: Id, list: Id, now: Time) returns (deleted: bool)
      modifies db`items
      ensures var outcome := DeleteItemRow(old(db.Snapshot()), list, id, now);
              db.Snapshot() == Left(old(db.Snapshot()), outcome) && deleted == outcome.Ok?
    {
      if id !in db.items || db.items[id].listId != list || db.items[id].deletedAt.Some? {
        return false;
      }
      db.items := db.items[id := db.items[id].(deletedAt := Some(now), updatedAt := now)];
      return true;
    }

    method RestoreItem(id: Id, list: Id, now: Time, members: seq<Subject>) returns (r: Result<ItemView>)
      modifies db`items
      ensures var outcome := RestoreItemRow(old(db.Snapshot()), list, id, now);
              db.Snapshot() == Left(old(db.Snapshot()), outcome) && r == Answer(outcome, list, id, members)
    {
      if id !in db.items || db.items[id].listId != list {
        return Err(NotFound);
      }
      db.items := db.items[id := db.items[id].(deletedAt := None, updatedAt := now)];
      r := Item(list, id, members);
    }

    method SetItemChecked(id: Id, list: Id, checked: bool, checkedAt: Option<Time>, checkedBy: Option<User>, now: Time,
                          members: seq<Subject>) returns (r: Result<ItemView>)
      modifies db`items
      ensures var outcome := SetChecked(old(db.Snapshot()), list, id, checked, checkedAt, checkedBy, now);
              db.Snapshot() == Left(old(db.Snapshot()), outcome) && r == Answer(outcome, list, id, members)
    {
      if id !in db.items || db.items[id].listId != list || db.items[id].deletedAt.Some? {
        return Err(NotFound);
      }
      db.items := db.items[id := db.items[id].(checked := checked, checkedAt := checkedAt, boughtBy := checkedBy,
                                              updatedAt := now)];
      r := Item(list, id, members);
    }

    method DeleteList(id: Id) returns (deleted: bool)
      modifies db`lists, db`items
      ensures var outcome := DeleteListRow(old(db.Snapshot()), id);
              db.Snapshot() == Left(old(db.Snapshot()), outcome) && deleted == outcome.Ok?
    {
      if id !in db.lists {
        return false;
      }
      CascadeItems(id);
      db.lists := db.lists - {id};
      return true;
    }

    /** ON DELETE CASCADE */
    method CascadeItems(id: Id)
      modifies db`items
      ensures db.items == Maps.Filter(old(db.items), (row: ItemRow) => row.listId != id)
    {
      var items := DeleteWhere(db.items, (row: ItemRow) => row.listId == id);
      assert items == Maps.Filter(db.items, (row: ItemRow) => row.listId != id);
      db.items := items;
    }

    /** The ids a scan finds live on the list, in display order. */
    method LiveInOrder(list: Id, scan: seq<Id>) returns (ids: seq<Id>)
      requires Ordering.Distinct(scan) && Ordering.Elements(scan) == db.items.Keys
      ensures ids == DisplayOrder(db.items, list)
    {
      var live: seq<Id> := [];
      for i := 0 to |scan|
        invariant Ordering.Distinct(live)
        invariant forall k :: 0 <= k < |live| ==> live[k] in scan[..i]
        invariant Ordering.Elements(live) == set id | id in scan[..i] && id in LiveIds(db.items, list)
      {
        assert scan[i] in Ordering.Elements(scan);
        assert scan[..i + 1] == scan[..i] + [scan[i]];
        var row := db.items[scan[i]];
        if row.listId == list && row.deletedAt.None? {
          assert scan[i] !in live;
          assert Ordering.Elements(live + [scan[i]]) == Ordering.Elements(live) + {scan[i]};
          live := live + [scan[i]];
        }
      }
      assert scan[..|scan|] == scan;
      assert Ordering.Elements(live) == LiveIds(db.items, list) by {
        forall id | id in LiveIds(db.items, list) ensures id in scan {
          assert id in Ordering.Elements(scan);
        }
      }
      Ordering.SortOrders(CreatedAt(db.items), live);
      ids := Ordering.Sort(CreatedAt(db.items), live);
      Ordering.OrderIsUnique(CreatedAt(db.items), ids, DisplayOrder(db.items, list));
    }

    /** The joined rows of the list's live items, in display order; the scans are how the tables are read. */
    method ListItems(list: Id, scan: seq<Id>, members: seq<Subject>) returns (views: seq<ItemView>)
      requires Ordering.Distinct(scan) && Ordering.Elements(scan) == db.items.Keys
      ensures views == ViewsOf(db.Snapshot(), DisplayOrder(db.items, list), members)
    {
      var ids := LiveInOrder(list, scan);
      views := JoinAll(ids, members);
    }

    method JoinAll(ids: seq<Id>, members: seq<Subject>) returns (views: seq<ItemView>)
      requires forall i :: 0 <= i < |ids| ==> ids[i] in db.items
      ensures views == ViewsOf(db.Snapshot(), ids, members)
    {
      views := [];
      ghost var t := db.Snapshot();
      for i := 0 to |ids|
        invariant views + ViewsOf(t, ids[i..], members) == ViewsOf(t, ids, members)
      {
        assert ids[i..][0] == ids[i] && ids[i..][1..] == ids[i + 1..];
        var joined := JoinRows(ids[i], members);
        views := views + joined;
      }
    }

    /** `newId` and `ids` are what the database generates; `scan` is how it reads the items. */
    method CopyList(source: Id, newId: Id, name: string, actor: User, ids: seq<Id>, scan: seq<Id>, now: Time)
      returns (copied: bool)
      requires newId !in db.lists && Unused(db.items, ids) && |ids| == |DisplayOrder(db.items, source)|
      requires Ordering.Distinct(scan) && Ordering.Elements(scan) == db.items.Keys
      modifies db`lists, db`items
      ensures var outcome := CopyListRows(old(db.Snapshot()), source, newId, name, ids, actor, now);
              db.Snapshot() == Left(old(db.Snapshot()), outcome) && copied == outcome.Ok?
    {
      if source !in db.lists {
        return false;
      }
      var order := LiveInOrder(source, scan);
      db.lists := db.lists[newId := ListRow(name, Some(actor), now, now)];
      InsertRows(order, ids, newId, actor, now);
      return true;
    }

    /** The copies, each staggered by its row number. */
    method InsertRows(order: seq<Id>, ids: seq<Id>, newId: Id, actor: User, now: Time)
      requires |ids| == |order| && Unused(db.items, ids) && forall i :: 0 <= i < |order| ==> order[i] in db.items
      modifies db`items
      ensures db.items == InsertCopies(old(db.items), order, ids, newId, actor, now)
    {
      ghost var before := db.items;
      for i := 0 to |order|
        invariant db.items == InsertCopies(before, order[..i], ids[..i], newId, actor, now)
      {
        assert order[..i + 1][..i] == order[..i] && ids[..i + 1][..i] == ids[..i];
        var row := db.items[order[i]];
        assert order[i] in before && order[i] !in ids[..i];
        db.items := db.items[ids[i] := CopyOf(row, newId, actor, now, i + 1)];
      }
      assert order[..|order|] == order && ids[..|order|] == ids;
    }
  }

  // ---------------------------------------------------------------- the service

  class Service {
    const repo: ListsRepository

    constructor (repo: ListsRepository)
      ensures this.repo == repo
    {
      this.repo := repo;
    }

    method AddItem(id: Id, list: Id, input: ItemInput, actor: User, now: Time, members: seq<Subject>) returns (r: Result<ItemView>)
      modifies repo.db`items
      ensures var outcome := ServiceAddItem(old(repo.db.Snapshot()), id, list, input, actor, now);
              repo.db.Snapshot() == Left(old(repo.db.Snapshot()), outcome) && r == Answer(outcome, list, id, members)
    {
      var name := ValidateName(input.name);
      if name.Err? {
        return Err(name.error);
      }
      var quantity := NormalizeQuantity(input.quantity);
      if quantity.Err? {
        return Err(quantity.error);
      }
      var unit := ValidateUnit(input.unit);
      if unit.Err? {
        return Err(unit.error);
      }
      var note := ValidateNote(input.note);
      if note.Err? {
        return Err(note.error);
      }
      r := repo.AddItem(id, list, name.value, quantity.value, unit.value, note.value, input.checked, actor, now,
                        members);
    }

    method UpdateItem(id: Id, list: Id, update: ItemUpdate, now: Time, members: seq<Subject>) returns (r: Result<ItemView>)
      modifies repo.db`items
      ensures var outcome := ServiceUpdateItem(old(repo.db.Snapshot()), id, list, update, now);
              repo.db.Snapshot() == Left(old(repo.db.Snapshot()), outcome) && r == Answer(outcome, list, id, members)
    {
      var clean := update;
      if update.name.Some? {
        var name := ValidateName(update.name.value);
        if name.Err? {
          return Err(name.error);
        }
        clean := clean.(name := Some(name.value));
      }
      if update.quantity.Some? && update.quantity.value < 1 {
        return Err(Invalid("quantity", "quantity must be at least 1"));
      }
      if update.unit.Some? {
        var unit := ValidateUnit(update.unit.value);
        if unit.Err? {
          return Err(unit.error);
        }
        clean := clean.(unit := Some(unit.value));
      }
      if update.noteSet {
        var note := ValidateNote(update.note);
        if note.Err? {
          return Err(note.error);
        }
        clean := clean.(note := note.value);
      }
      r := repo.UpdateItem(id, list, clean, now, members);
    }

    method CheckItem(id: Id, list: Id, actor: User, now: Time, members: seq<Subject>) returns (r: Result<ItemView>)
      modifies repo.db`items
      ensures repo.db.Snapshot() == After(old(repo.db.Snapshot()), Call.CheckItem(id, list, actor, now))
      ensures r == Answer(Perform(old(repo.db.Snapshot()), Call.CheckItem(id, list, actor, now)), list, id, members)
    {
      r := SetCheckedTo(id, list, true, actor, now, members);
    }

    method UncheckItem(id: Id, list: Id, actor: User, now: Time, members: seq<Subject>) returns (r: Result<ItemView>)
      modifies repo.db`items
      ensures repo.db.Snapshot() == After(old(repo.db.Snapshot()), Call.UncheckItem(id, list, now))
      ensures r == Answer(Perform(old(repo.db.Snapshot()), Call.UncheckItem(id, list, now)), list, id, members)
    {
      r := SetCheckedTo(id, list, false, actor, now, members);
    }

    /** Loads the item and writes only when its state changes. */
    method SetCheckedTo(id: Id, list: Id, checked: bool, actor: User, now: Time, members: seq<Subject>)
      returns (r: Result<ItemView>)
      modifies repo.db`items
      ensures var outcome := ServiceSetChecked(old(repo.db.Snapshot()), id, list, checked, actor, now);
              repo.db.Snapshot() == Left(old(repo.db.Snapshot()), outcome) && r == Answer(outcome, list, id, members)
    {
      r := repo.Item(list, id, members);
      if r.Err? || r.value.row.checked == checked {
        return;
      }
      var checkedAt, checkedBy := None, None;
      if checked {
        checkedAt := Some(now);
        checkedBy := Some(actor);
      }
      r := repo.SetItemChecked(id, list, checked, checkedAt, checkedBy, now, members);
    }
  }

  // ---------------------------------------------------------------- merging identities

  class IdentityRepository {
    const db: Database

    constructor (db: Database)
      ensures this.db == db
    {
      this.db := db;
    }

    method UpdateCreatedBy(source: User, target: User) returns (n: nat)
      modifies db`lists
      ensures db.lists == CreditLists(old(db.lists), source, target)
      ensures n == |ListsBy(old(db.lists), source)|
    {
      ghost var before := db.lists;
      var lists, ids := UpdateWhere(db.lists, (row: ListRow) => row.createdBy == Some(source),
                                    (row: ListRow) => row.(createdBy := Some(target)));
      assert lists == CreditLists(before, source, target) && ids == ListsBy(before, source);
      db.lists := lists;
      n := |ids|;
    }

    method UpdateAddedBy(source: User, target: User) returns (n: nat)
      modifies db`items
      ensures db.items == CreditAdded(old(db.items), source, target)
      ensures n == |AddedBy(old(db.items), source)|
    {
      ghost var before := db.items;
      var items, ids := UpdateWhere(db.items, (row: ItemRow) => row.addedBy == Some(source),
                                    (row: ItemRow) => row.(addedBy := Some(target)));
      assert items == CreditAdded(before, source, target) && ids == AddedBy(before, source);
      db.items := items;
      n := |ids|;
    }

    method UpdateBoughtBy(source: User, target: User) returns (n: nat)
      modifies db`items
      ensures db.items == CreditBought(old(db.items), source, target)
      ensures n == |BoughtBy(old(db.items), source)|
    {
      ghost var before := db.items;
      var items, ids := UpdateWhere(db.items, (row: ItemRow) => row.boughtBy == Some(source),
                                    (row: ItemRow) => row.(boughtBy := Some(target)));
      assert items == CreditBought(before, source, target) && ids == BoughtBy(before, source);
      db.items := items;
      n := |ids|;
    }

    method DeleteMembers(userId: User)
      modifies db`members
      ensures db.members == Maps.Filter(old(db.members), (m: MemberRow) => m.userId != userId)
    {
      var members := DeleteWhere(db.members, (m: MemberRow) => m.userId == userId);
      assert members == Maps.Filter(db.members, (m: MemberRow) => m.userId != userId);
      db.members := members;
    }

    method DeleteSourceIdentity(source: Identity)
      modifies db
      ensures db.Snapshot() == DeleteSource(old(db.Snapshot()), source)
    {
      DeleteMembers(source.userId);
      if source.kind.Local? {
        db.users := db.users - {source.userId};
      }
    }

    method SeedTargetMember(target: Identity) returns (ok: bool)
      modifies db
      ensures db.Snapshot() == Left(old(db.Snapshot()), SeedTarget(old(db.Snapshot()), target))
      ensures ok == SeedTarget(old(db.Snapshot()), target).Ok?
    {
      var subject := UuidText(target.userId);
      if target.kind.Local? && subject !in db.members {
        if exists s | s in db.members :: db.members[s].userId == target.userId {
          return false;
        }
        db.members := db.members[subject := MemberRow(target.userId, target.email, target.name)];
      }
      return true;
    }

    method MoveAttribution(source: User, target: User) returns (result: MergeResult)
      modifies db
      ensures db.Snapshot() == RewriteAttribution(old(db.Snapshot()), source, target)
      ensures result == Counts(old(db.Snapshot()), source)
    {
      ghost var items := db.items;
      var lists := UpdateCreatedBy(source, target);
      var added := UpdateAddedBy(source, target);
      var bought := UpdateBoughtBy(source, target);
      assert BoughtBy(CreditAdded(items, source, target), source) == BoughtBy(items, source);
      result := MergeResult(lists, added, bought);
    }

    /** One transaction: when the seeding fails, everything is as it was. */
    method MergeInto(source: Identity, target: Identity) returns (ok: bool, result: MergeResult)
      modifies db
      ensures db.Snapshot() == Left(old(db.Snapshot()), Merge(old(db.Snapshot()), source, target))
      ensures ok == Merge(old(db.Snapshot()), source, target).Ok?
      ensures ok ==> result == Counts(old(db.Snapshot()), source.userId)
    {
      var lists, items, members, users := db.lists, db.items, db.members, db.users;
      result := MoveAttribution(source.userId, target.userId);
      DeleteSourceIdentity(source);
      ok := SeedTargetMember(target);
      if !ok {
        db.lists, db.items, db.members, db.users := lists, items, members, users;
      }
    }
  }
}
