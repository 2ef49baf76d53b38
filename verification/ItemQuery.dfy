/**
 The query behind reading items (adapters/db/items.go): two left joins that resolve
 the names of an item's adder and buyer, over a scan that delivers each members row
 once, in any order.
 */
module ItemQuery {

  import opened Results
  import opened Store
  import Identity

  /** A NULL id is no actor; an id without a members row is one without a name. */
  datatype Actor = Actor(id: User, name: string)

  datatype ItemView = ItemView(row: ItemRow, addedBy: Option<Actor>, boughtBy: Option<Actor>)

  function ToActor(id: Option<User>, name: Option<string>): Option<Actor> {
    if id.None? then None else Some(Actor(id.value, if name.Some? then name.value else ""))
  }

  ghost predicate ScansMembers(members: map<Subject, MemberRow>, scan: seq<Subject>) {
    && (forall s :: s in members <==> s in scan)
    && forall i, j :: 0 <= i < j < |scan| ==> scan[i] != scan[j]
  }

  /** ON m.user_id = id */
  predicate Matches(members: map<Subject, MemberRow>, s: Subject, id: Option<User>) {
    s in members && id == Some(members[s].userId)
  }

  function MatchingNames(members: map<Subject, MemberRow>, scan: seq<Subject>, id: Option<User>): seq<Option<string>> {
    if scan == [] then []
    else (if Matches(members, scan[0], id) then [Some(members[scan[0]].name)] else [])
         + MatchingNames(members, scan[1..], id)
  }

  /** A left join keeps the row once, with NULL, when nothing matches. */
  function JoinedNames(members: map<Subject, MemberRow>, scan: seq<Subject>, id: Option<User>): (r: seq<Option<string>>)
    ensures r != []
  {
    var names := MatchingNames(members, scan, id);
    if names == [] then [None] else names
  }

  function WithBuyers(row: ItemRow, adder: Option<string>, buyers: seq<Option<string>>): (r: seq<ItemView>)
    ensures |r| == |buyers|
  {
    if buyers == [] then []
    else [ItemView(row, ToActor(row.addedBy, adder), ToActor(row.boughtBy, buyers[0]))] + WithBuyers(row, adder, buyers[1..])
  }

  function WithNames(row: ItemRow, adders: seq<Option<string>>, buyers: seq<Option<string>>): (r: seq<ItemView>)
    ensures adders != [] && buyers != [] ==> r != []
  {
    if adders == [] then [] else WithBuyers(row, adders[0], buyers) + WithNames(row, adders[1..], buyers)
  }

  function RowsOf(t: Tables, id: Id, scan: seq<Subject>): (r: seq<ItemView>)
    requires id in t.items
    ensures r != []
  {
    var row := t.items[id];
    WithNames(row, JoinedNames(t.members, scan, row.addedBy), JoinedNames(t.members, scan, row.boughtBy))
  }

  /** The joined rows of the items, in the order of their ids. */
  function ViewsOf(t: Tables, ids: seq<Id>, scan: seq<Subject>): seq<ItemView>
    requires forall i :: 0 <= i < |ids| ==> ids[i] in t.items
  {
    if ids == [] then [] else RowsOf(t, ids[0], scan) + ViewsOf(t, ids[1..], scan)
  }

  /** Reads one item: the first joined row, if the item is live on the list. */
  function ReadView(t: Tables, list: Id, id: Id, scan: seq<Subject>): Result<ItemView> {
    if Live(t, list, id) then Ok(RowsOf(t, id, scan)[0]) else Err(NotFound)
  }

  // ---------------------------------------------------------------- the meaning

  /** The actor has the id, and the name its members row gives it, if there is one. */
  ghost predicate Resolves(members: map<Subject, MemberRow>, id: Option<User>, actor: Option<Actor>) {
    && (actor.Some? <==> id.Some?)
    && (actor.Some? ==>
          && actor.value.id == id.value
          && (forall s :: s in members && members[s].userId == id.value ==> actor.value.name == members[s].name)
          && ((forall s :: s in members ==> members[s].userId != id.value) ==> actor.value.name == ""))
  }

  lemma {:induction false} NoNames(members: map<Subject, MemberRow>, scan: seq<Subject>, id: Option<User>)
    requires forall i :: 0 <= i < |scan| ==> !Matches(members, scan[i], id)
    ensures MatchingNames(members, scan, id) == []
    decreases scan
  {
    if scan == [] {
    } else {
      NoNames(members, scan[1..], id);
    }
  }

  /** The unique index on user_id keeps the join from duplicating rows. */
  lemma {:induction false} AtMostOneName(members: map<Subject, MemberRow>, scan: seq<Subject>, id: Option<User>)
    requires UniqueUserIds(members)
    requires forall i, j :: 0 <= i < j < |scan| ==> scan[i] != scan[j]
    ensures var names := MatchingNames(members, scan, id);
            && |names| <= 1
            && (names == [] ==> forall i :: 0 <= i < |scan| ==> !Matches(members, scan[i], id))
            && (names != [] ==> exists i :: 0 <= i < |scan| && Matches(members, scan[i], id) && names[0] == Some(members[scan[i]].name))
    decreases scan
  {
    if scan == [] {
    } else if Matches(members, scan[0], id) {
      NoNames(members, scan[1..], id);
    } else {
      AtMostOneName(members, scan[1..], id);
      var tail := scan[1..];
      if MatchingNames(members, tail, id) != [] {
        var i :| 0 <= i < |tail| && Matches(members, tail[i], id) && MatchingNames(members, tail, id)[0] == Some(members[tail[i]].name);
        assert scan[i + 1] == tail[i];
      }
    }
  }

  lemma OneNameResolves(members: map<Subject, MemberRow>, scan: seq<Subject>, id: Option<User>)
    requires UniqueUserIds(members) && ScansMembers(members, scan)
    ensures |JoinedNames(members, scan, id)| == 1
    ensures Resolves(members, id, ToActor(id, JoinedNames(members, scan, id)[0]))
  {
    AtMostOneName(members, scan, id);
    if id.Some? {
      forall s | s in members && members[s].userId == id.value
        ensures JoinedNames(members, scan, id) == [Some(members[s].name)]
      {
        var i :| 0 <= i < |scan| && scan[i] == s;
        assert Matches(members, scan[i], id);
      }
    }
  }

  /** The view is the item's row with the current names of its adder and buyer. */
  ghost predicate ShowsItem(t: Tables, id: Id, view: ItemView)
    requires id in t.items
  {
    && view.row == t.items[id]
    && Resolves(t.members, view.row.addedBy, view.addedBy) && Resolves(t.members, view.row.boughtBy, view.boughtBy)
  }

  lemma OneRowPerItem(t: Tables, id: Id, scan: seq<Subject>)
    requires UniqueUserIds(t.members) && ScansMembers(t.members, scan) && id in t.items
    ensures var rows := RowsOf(t, id, scan); |rows| == 1 && ShowsItem(t, id, rows[0])
  {
    var row := t.items[id];
    OneNameResolves(t.members, scan, row.addedBy);
    OneNameResolves(t.members, scan, row.boughtBy);
    var adders, buyers := JoinedNames(t.members, scan, row.addedBy), JoinedNames(t.members, scan, row.boughtBy);
    assert adders[1..] == [] && buyers[1..] == [];
    assert WithNames(row, adders[1..], buyers) == [];
    assert WithBuyers(row, adders[0], buyers) == [ItemView(row, ToActor(row.addedBy, adders[0]), ToActor(row.boughtBy, buyers[0]))];
  }

  /** Reading one item gives its row and the current names of its adder and buyer. */
  lemma ItemIsRead(t: Tables, list: Id, id: Id, scan: seq<Subject>)
    requires UniqueUserIds(t.members) && ScansMembers(t.members, scan)
    ensures var (view, read) := (ReadView(t, list, id, scan), ReadItem(t, list, id));
            && (view.Err? ==> read == Err(view.error))
            && (view.Ok? ==> read == Ok(view.value.row) && ShowsItem(t, id, view.value))
  {
    if Live(t, list, id) {
      OneRowPerItem(t, id, scan);
    }
  }

  /**
   However the members are scanned, reading items returns each of them once, in the
   given order, with its own columns and the current names of its adder and buyer.
   */
  lemma {:induction false} ItemsAreReadOnce(t: Tables, ids: seq<Id>, scan: seq<Subject>)
    requires UniqueUserIds(t.members) && ScansMembers(t.members, scan)
    requires forall i :: 0 <= i < |ids| ==> ids[i] in t.items
    ensures var views := ViewsOf(t, ids, scan);
            |views| == |ids| && forall i :: 0 <= i < |ids| ==> ShowsItem(t, ids[i], views[i])
    decreases ids
  {
    if ids == [] {
    } else {
      OneRowPerItem(t, ids[0], scan);
      ItemsAreReadOnce(t, ids[1..], scan);
      var views, first, rest := ViewsOf(t, ids, scan), RowsOf(t, ids[0], scan), ViewsOf(t, ids[1..], scan);
      assert views == first + rest;
      forall i | 0 <= i < |ids| ensures ShowsItem(t, ids[i], views[i]) {
        if i == 0 {
          assert views[0] == first[0];
        } else {
          assert views[i] == rest[i - 1] && ids[i] == ids[1..][i - 1];
        }
      }
    }
  }

  /**
   After a merge onto a local user without a members row, what the source had added or
   bought is read with that user's name.
   */
  lemma MergedNamesAreRead(
    t: Tables, source: Identity.Identity, target: Identity.Identity, id: Id, scan: seq<Subject>)
    requires UniqueUserIds(t.members) && source.userId != target.userId && Identity.Merge(t, source, target).Ok?
    requires target.kind.Local? && UuidText(target.userId) !in t.members && id in t.items
    requires ScansMembers(Identity.Merge(t, source, target).value.members, scan)
    ensures var t' := Identity.Merge(t, source, target).value;
            && id in t'.items && |RowsOf(t', id, scan)| == 1
            && var view := RowsOf(t', id, scan)[0];
            && (t.items[id].addedBy == Some(source.userId) ==> view.addedBy == Some(Actor(target.userId, target.name)))
            && (t.items[id].boughtBy == Some(source.userId) ==> view.boughtBy == Some(Actor(target.userId, target.name)))
  {
    var t' := Identity.Merge(t, source, target).value;
    Identity.MergedMembers(t, source, target);
    Identity.MergeKeepsUserIdsUnique(t, source, target);
    assert id in Identity.RewriteAttribution(t, source.userId, target.userId).items;
    OneRowPerItem(t', id, scan);
    assert t'.members[UuidText(target.userId)].userId == target.userId;
  }
}
