/**
 The query behind the list overview (adapters/db/lists.go): two left joins, a
 grouping with conditional sums, and an order.

 A table is read by a scan that delivers each of its rows once, in any order.
 */
module ListQuery {

  import opened Results
  import opened Store
  import Ordering

  datatype Joined = Joined(list: Id, item: Option<Id>, member: Option<Subject>)

  datatype Summary = Summary(
    id: Id,
    name: string,
    createdAt: Time,
    updatedAt: Time,
    open: nat,
    checked: nat,
    createdBy: Option<User>,
    createdByName: Option<string>)

  ghost predicate Scans(t: Tables, lists: seq<Id>, items: seq<Id>, members: seq<Subject>) {
    && Ordering.Distinct(lists) && (forall i :: 0 <= i < |lists| ==> lists[i] in t.lists)
    && Ordering.Distinct(items) && (forall i :: 0 <= i < |items| ==> items[i] in t.items)
    && (forall i, j :: 0 <= i < j < |members| ==> members[i] != members[j])
    && (forall i :: 0 <= i < |members| ==> members[i] in t.members)
  }

  // ---------------------------------------------------------------- the joins

  /** ON i.list_id = l.id AND i.deleted_at IS NULL */
  predicate ItemMatches(t: Tables, item: Id, list: Id) {
    item in t.items && t.items[item].listId == list && t.items[item].deletedAt.None?
  }

  /** ON m.user_id = l.created_by; NULL equals nothing. */
  predicate MemberMatches(t: Tables, member: Subject, list: Id) {
    member in t.members && list in t.lists && t.lists[list].createdBy == Some(t.members[member].userId)
  }

  function MatchingItems(t: Tables, items: seq<Id>, list: Id): seq<Option<Id>> {
    if items == [] then []
    else (if ItemMatches(t, items[0], list) then [Some(items[0])] else []) + MatchingItems(t, items[1..], list)
  }

  function MatchingMembers(t: Tables, members: seq<Subject>, list: Id): seq<Option<Subject>> {
    if members == [] then []
    else (if MemberMatches(t, members[0], list) then [Some(members[0])] else []) + MatchingMembers(t, members[1..], list)
  }

  /** A left join keeps a row without a match once, with NULLs. */
  function OrNull<T>(matches: seq<Option<T>>): seq<Option<T>> {
    if matches == [] then [None] else matches
  }

  function WithMembers(list: Id, item: Option<Id>, members: seq<Option<Subject>>): seq<Joined> {
    if members == [] then [] else [Joined(list, item, members[0])] + WithMembers(list, item, members[1..])
  }

  function WithItems(list: Id, items: seq<Option<Id>>, members: seq<Option<Subject>>): seq<Joined> {
    if items == [] then [] else WithMembers(list, items[0], members) + WithItems(list, items[1..], members)
  }

  function RowsOf(t: Tables, list: Id, items: seq<Id>, members: seq<Subject>): seq<Joined> {
    WithItems(list, OrNull(MatchingItems(t, items, list)), OrNull(MatchingMembers(t, members, list)))
  }

  function Join(t: Tables, lists: seq<Id>, items: seq<Id>, members: seq<Subject>): seq<Joined> {
    if lists == [] then [] else RowsOf(t, lists[0], items, members) + Join(t, lists[1..], items, members)
  }

  // ---------------------------------------------------------------- the grouping

  /** GROUP BY l.id, m.name */
  function NameOf(t: Tables, member: Option<Subject>): Option<string> {
    if member.Some? && member.value in t.members then Some(t.members[member.value].name) else None
  }

  predicate SameGroup(t: Tables, a: Joined, b: Joined) {
    a.list == b.list && NameOf(t, a.member) == NameOf(t, b.member)
  }

  function Pick(t: Tables, rows: seq<Joined>, key: Joined, same: bool): (r: seq<Joined>)
    ensures |r| <= |rows|
  {
    if rows == [] then []
    else (if SameGroup(t, rows[0], key) == same then [rows[0]] else []) + Pick(t, rows[1..], key, same)
  }

  /** SUM(CASE WHEN i.checked = c THEN 1 ELSE 0 END), where a NULL item is neither. */
  function Sum(t: Tables, rows: seq<Joined>, checked: bool): nat {
    if rows == [] then 0
    else
      var item := rows[0].item;
      (if item.Some? && item.value in t.items && t.items[item.value].checked == checked then 1 else 0)
      + Sum(t, rows[1..], checked)
  }

  function Summarise(t: Tables, group: seq<Joined>): Summary
    requires group != [] && group[0].list in t.lists
  {
    var list := t.lists[group[0].list];
    Summary(group[0].list, list.name, list.createdAt, list.updatedAt, Sum(t, group, false), Sum(t, group, true),
            list.createdBy, NameOf(t, group[0].member))
  }

  function Group(t: Tables, rows: seq<Joined>): seq<Summary>
    requires FromLists(t, rows)
    decreases |rows|
  {
    if rows == [] then []
    else
      var rest := Pick(t, rows[1..], rows[0], false);
      PickFrom(t, rows[1..], rows[0], false);
      [Summarise(t, [rows[0]] + Pick(t, rows[1..], rows[0], true))] + Group(t, rest)
  }

  lemma {:induction false} PickFrom(t: Tables, rows: seq<Joined>, key: Joined, same: bool)
    ensures forall i :: 0 <= i < |Pick(t, rows, key, same)| ==> Pick(t, rows, key, same)[i] in rows
    decreases rows
  {
    if rows == [] {
    } else {
      PickFrom(t, rows[1..], key, same);
      var rest := Pick(t, rows[1..], key, same);
      assert forall i :: 0 <= i < |rest| ==> rest[i] in rows[1..];
    }
  }

  // ---------------------------------------------------------------- the meaning

  function OpenItems(t: Tables, list: Id): set<Id> {
    set id | id in LiveIds(t.items, list) && !t.items[id].checked
  }

  function CheckedItems(t: Tables, list: Id): set<Id> {
    set id | id in LiveIds(t.items, list) && t.items[id].checked
  }

  /** The creator's name as some members row gives it, if one does. */
  ghost predicate CreatorName(t: Tables, list: Id, name: Option<string>)
    requires list in t.lists
  {
    var creator := t.lists[list].createdBy;
    if name.Some?
    then exists s :: s in t.members && creator == Some(t.members[s].userId) && t.members[s].name == name.value
    else forall s :: s in t.members ==> creator != Some(t.members[s].userId)
  }

  /** What the overview should say about a list. */
  ghost predicate Describes(t: Tables, list: Id, s: Summary) {
    && list in t.lists
    && s.id == list && s.name == t.lists[list].name && s.createdBy == t.lists[list].createdBy
    && s.createdAt == t.lists[list].createdAt && s.updatedAt == t.lists[list].updatedAt
    && s.open == |OpenItems(t, list)| && s.checked == |CheckedItems(t, list)|
    && CreatorName(t, list, s.createdByName)
  }

  // ---------------------------------------------------------------- one list's rows

  lemma {:induction false} NoMatchingMember(t: Tables, members: seq<Subject>, list: Id)
    requires forall i :: 0 <= i < |members| ==> !MemberMatches(t, members[i], list)
    ensures MatchingMembers(t, members, list) == []
    decreases members
  {
    if members == [] {
    } else {
      NoMatchingMember(t, members[1..], list);
    }
  }

  /** Because user ids are unique, at most one member row matches. */
  lemma {:induction false} AtMostOneMember(t: Tables, members: seq<Subject>, list: Id)
    requires UniqueUserIds(t.members)
    requires forall i, j :: 0 <= i < j < |members| ==> members[i] != members[j]
    ensures var m := MatchingMembers(t, members, list);
            && |m| <= 1
            && (m != [] ==> m[0].Some? && m[0].value in members && MemberMatches(t, m[0].value, list))
            && (m == [] ==> forall i :: 0 <= i < |members| ==> !MemberMatches(t, members[i], list))
    decreases members
  {
    if members == [] {
    } else {
      if MemberMatches(t, members[0], list) {
        NoMatchingMember(t, members[1..], list);
      } else {
        AtMostOneMember(t, members[1..], list);
      }
    }
  }

  lemma {:induction false} RowsShareTheirKey(t: Tables, list: Id, items: seq<Option<Id>>, member: Option<Subject>)
    ensures var rows := WithItems(list, items, [member]);
            |rows| == |items| && forall i :: 0 <= i < |rows| ==> rows[i] == Joined(list, items[i], member)
    decreases items
  {
    if items == [] {
    } else {
      assert WithMembers(list, items[0], [member]) == [Joined(list, items[0], member)];
      RowsShareTheirKey(t, list, items[1..], member);
    }
  }

  function Chosen(t: Tables, items: seq<Id>, list: Id, checked: bool): set<Id> {
    set id | id in items && ItemMatches(t, id, list) && t.items[id].checked == checked
  }

  lemma ChosenTail(t: Tables, items: seq<Id>, list: Id, checked: bool)
    requires Ordering.Distinct(items) && items != []
    ensures Ordering.Distinct(items[1..])
    ensures |Chosen(t, items, list, checked)| == |Chosen(t, items[1..], list, checked)|
            + if ItemMatches(t, items[0], list) && t.items[items[0]].checked == checked then 1 else 0
  {
    Ordering.TailElements(items);
    assert items[0] !in items[1..] by { assert items[0] !in Ordering.Elements(items[1..]); }
    var all, rest := Chosen(t, items, list, checked), Chosen(t, items[1..], list, checked);
    if ItemMatches(t, items[0], list) && t.items[items[0]].checked == checked {
      assert all == rest + {items[0]};
    } else {
      assert all == rest;
    }
  }

  lemma SumOne(t: Tables, list: Id, item: Id, more: seq<Option<Id>>, member: Option<Subject>, checked: bool)
    requires item in t.items
    ensures Sum(t, WithItems(list, [Some(item)] + more, [member]), checked)
            == (if t.items[item].checked == checked then 1 else 0) + Sum(t, WithItems(list, more, [member]), checked)
  {
    var row, rest := Joined(list, Some(item), member), WithItems(list, more, [member]);
    assert ([Some(item)] + more)[1..] == more;
    assert WithMembers(list, Some(item), [member]) == [row];
    assert WithItems(list, [Some(item)] + more, [member]) == [row] + rest;
    assert ([row] + rest)[0] == row && ([row] + rest)[1..] == rest;
  }

  lemma {:induction false} SumCounts(t: Tables, items: seq<Id>, list: Id, member: Option<Subject>, checked: bool)
    requires Ordering.Distinct(items)
    ensures Sum(t, WithItems(list, MatchingItems(t, items, list), [member]), checked) == |Chosen(t, items, list, checked)|
    decreases items
  {
    if items == [] {
      assert Chosen(t, items, list, checked) == {};
    } else {
      ChosenTail(t, items, list, checked);
      SumCounts(t, items[1..], list, member, checked);
      if ItemMatches(t, items[0], list) {
        SumOne(t, list, items[0], MatchingItems(t, items[1..], list), member, checked);
      } else {
        assert MatchingItems(t, items, list) == MatchingItems(t, items[1..], list);
      }
    }
  }

  lemma SumOverList(t: Tables, list: Id, items: seq<Id>, member: Option<Subject>, checked: bool)
    requires Ordering.Distinct(items)
    ensures Sum(t, WithItems(list, OrNull(MatchingItems(t, items, list)), [member]), checked)
            == |Chosen(t, items, list, checked)|
  {
    SumCounts(t, items, list, member, checked);
    if MatchingItems(t, items, list) == [] {
      assert WithMembers(list, None, [member]) == [Joined(list, None, member)];
      assert WithItems(list, [None], [member]) == [Joined(list, None, member)];
      assert [Joined(list, None, member)][1..] == [];
    }
  }

  // ---------------------------------------------------------------- groups

  lemma {:induction false} PickNone(t: Tables, others: seq<Joined>, key: Joined)
    requires forall i :: 0 <= i < |others| ==> !SameGroup(t, others[i], key)
    ensures Pick(t, others, key, true) == [] && Pick(t, others, key, false) == others
    decreases others
  {
    if others == [] {
    } else {
      PickNone(t, others[1..], key);
    }
  }

  lemma {:induction false} PickAll(t: Tables, rows: seq<Joined>, others: seq<Joined>, key: Joined)
    requires forall i :: 0 <= i < |rows| ==> SameGroup(t, rows[i], key)
    requires forall i :: 0 <= i < |others| ==> !SameGroup(t, others[i], key)
    ensures Pick(t, rows + others, key, true) == rows
    ensures Pick(t, rows + others, key, false) == others
    decreases rows
  {
    if rows == [] {
      assert rows + others == others;
      PickNone(t, others, key);
    } else {
      var all, rest := rows + others, rows[1..] + others;
      assert all[0] == rows[0] && all[1..] == rest;
      PickAll(t, rows[1..], others, key);
      assert rows == [rows[0]] + rows[1..];
    }
  }

  lemma {:induction false} JoinLists(t: Tables, lists: seq<Id>, items: seq<Id>, members: seq<Subject>)
    requires Scans(t, lists, items, members) && UniqueUserIds(t.members)
    ensures forall i :: 0 <= i < |Join(t, lists, items, members)| ==> Join(t, lists, items, members)[i].list in lists
    decreases lists
  {
    if lists == [] {
    } else {
      ScansTail(t, lists, items, members);
      JoinLists(t, lists[1..], items, members);
      OneKeyPerList(t, lists[0], items, members);
    }
  }

  lemma ScansTail(t: Tables, lists: seq<Id>, items: seq<Id>, members: seq<Subject>)
    requires Scans(t, lists, items, members) && lists != []
    ensures Scans(t, lists[1..], items, members) && lists[0] !in lists[1..]
  {
    Ordering.TailElements(lists);
    assert lists[0] !in Ordering.Elements(lists[1..]);
  }

  function TheMember(t: Tables, list: Id, members: seq<Subject>): Option<Subject> {
    var m := OrNull(MatchingMembers(t, members, list));
    m[0]
  }

  lemma OneKeyPerList(t: Tables, list: Id, items: seq<Id>, members: seq<Subject>)
    requires UniqueUserIds(t.members)
    requires forall i, j :: 0 <= i < j < |members| ==> members[i] != members[j]
    ensures var member := TheMember(t, list, members);
            var rows := RowsOf(t, list, items, members);
            && rows == WithItems(list, OrNull(MatchingItems(t, items, list)), [member])
            && rows != []
            && forall i :: 0 <= i < |rows| ==> rows[i].list == list && rows[i].member == member
  {
    AtMostOneMember(t, members, list);
    var member := TheMember(t, list, members);
    assert OrNull(MatchingMembers(t, members, list)) == [member];
    RowsShareTheirKey(t, list, OrNull(MatchingItems(t, items, list)), member);
  }

  ghost predicate Enumerates(t: Tables, lists: seq<Id>, items: seq<Id>, members: seq<Subject>) {
    && Scans(t, lists, items, members)
    && (forall id :: id in t.items ==> id in items)
    && (forall s :: s in t.members ==> s in members)
  }

  lemma SumsAreCounts(t: Tables, list: Id, items: seq<Id>, members: seq<Subject>)
    requires Enumerates(t, [], items, members) && UniqueUserIds(t.members)
    ensures var rows := RowsOf(t, list, items, members);
            Sum(t, rows, false) == |OpenItems(t, list)| && Sum(t, rows, true) == |CheckedItems(t, list)|
  {
    OneKeyPerList(t, list, items, members);
    var member := TheMember(t, list, members);
    SumOverList(t, list, items, member, false);
    SumOverList(t, list, items, member, true);
    assert Chosen(t, items, list, false) == OpenItems(t, list);
    assert Chosen(t, items, list, true) == CheckedItems(t, list);
  }

  lemma NameIsTheCreators(t: Tables, list: Id, items: seq<Id>, members: seq<Subject>)
    requires Enumerates(t, [], items, members) && UniqueUserIds(t.members) && list in t.lists
    ensures CreatorName(t, list, NameOf(t, TheMember(t, list, members)))
  {
    AtMostOneMember(t, members, list);
    if TheMember(t, list, members).None? {
      forall s | s in t.members ensures !MemberMatches(t, s, list) {
        assert s in members;
      }
    }
  }

  lemma SummaryDescribes(t: Tables, list: Id, items: seq<Id>, members: seq<Subject>)
    requires Enumerates(t, [], items, members) && UniqueUserIds(t.members) && list in t.lists
    ensures var rows := RowsOf(t, list, items, members);
            rows != [] && rows[0].list == list && Describes(t, list, Summarise(t, rows))
  {
    OneKeyPerList(t, list, items, members);
    SumsAreCounts(t, list, items, members);
    NameIsTheCreators(t, list, items, members);
    assert RowsOf(t, list, items, members)[0].member == TheMember(t, list, members);
  }

  /** Grouping the join yields one summary for each list scanned, and it is the right one. */
  lemma {:induction false} GroupsDescribeLists(t: Tables, lists: seq<Id>, items: seq<Id>, members: seq<Subject>)
    requires Enumerates(t, lists, items, members) && UniqueUserIds(t.members)
    ensures var rows := Join(t, lists, items, members);
            && FromLists(t, rows)
            && |Group(t, rows)| == |lists|
            && forall i :: 0 <= i < |lists| ==> Describes(t, lists[i], Group(t, rows)[i])
    decreases lists
  {
    JoinLists(t, lists, items, members);
    if lists == [] {
    } else {
      ScansTail(t, lists, items, members);
      JoinLists(t, lists[1..], items, members);
      GroupsDescribeLists(t, lists[1..], items, members);
      OneKeyPerList(t, lists[0], items, members);
      SummaryDescribes(t, lists[0], items, members);
      var own, others := RowsOf(t, lists[0], items, members), Join(t, lists[1..], items, members);
      GroupSplits(t, own, others);
    }
  }

  ghost predicate FromLists(t: Tables, rows: seq<Joined>) {
    forall i :: 0 <= i < |rows| ==> rows[i].list in t.lists
  }

  lemma PickOwn(t: Tables, own: seq<Joined>, others: seq<Joined>)
    requires own != []
    requires forall i :: 0 <= i < |own| ==> own[i].list == own[0].list && own[i].member == own[0].member
    requires forall i :: 0 <= i < |others| ==> others[i].list != own[0].list
    ensures [own[0]] + Pick(t, own[1..] + others, own[0], true) == own
    ensures Pick(t, own[1..] + others, own[0], false) == others
  {
    PickAll(t, own[1..], others, own[0]);
  }

  lemma GroupSplits(t: Tables, own: seq<Joined>, others: seq<Joined>)
    requires own != [] && FromLists(t, own) && FromLists(t, others)
    requires forall i :: 0 <= i < |own| ==> own[i].list == own[0].list && own[i].member == own[0].member
    requires forall i :: 0 <= i < |others| ==> others[i].list != own[0].list
    ensures FromLists(t, own + others)
    ensures Group(t, own + others) == [Summarise(t, own)] + Group(t, others)
  {
    PickOwn(t, own, others);
    TailFromLists(t, own, others);
  }

  lemma TailFromLists(t: Tables, own: seq<Joined>, others: seq<Joined>)
    requires own != [] && FromLists(t, own) && FromLists(t, others)
    ensures own + others == [own[0]] + (own[1..] + others)
    ensures FromLists(t, own[1..] + others)
  {
    var tail := own[1..] + others;
    forall i | 0 <= i < |tail| ensures tail[i].list in t.lists {
      assert tail[i] == if i < |own| - 1 then own[i + 1] else others[i - (|own| - 1)];
    }
  }

  // ---------------------------------------------------------------- the ordered result

  /** ORDER BY l.created_at DESC, l.id */
  predicate NewestFirst(a: Summary, b: Summary) {
    a.createdAt > b.createdAt || (a.createdAt == b.createdAt && a.id < b.id)
  }

  /** What the database may return: the groups of the join, put in order. */
  ghost predicate QueryResult(t: Tables, lists: seq<Id>, items: seq<Id>, members: seq<Subject>, out: seq<Summary>)
    requires FromLists(t, Join(t, lists, items, members))
  {
    && multiset(out) == multiset(Group(t, Join(t, lists, items, members)))
    && forall i, j :: 0 <= i < j < |out| ==> out[i] == out[j] || NewestFirst(out[i], out[j])
  }

  /**
   However the tables are scanned, the overview returns every list exactly once,
   newest first, with counts equal to its live open and live checked items and its
   creator's current name; empty and fully deleted lists are there too.
   */
  lemma ListQueryMeaning(t: Tables, lists: seq<Id>, items: seq<Id>, members: seq<Subject>, out: seq<Summary>)
    requires Enumerates(t, lists, items, members) && UniqueUserIds(t.members)
    requires forall id :: id in t.lists ==> id in lists
    requires FromLists(t, Join(t, lists, items, members))
    requires QueryResult(t, lists, items, members, out)
    ensures forall i :: 0 <= i < |out| ==> Describes(t, out[i].id, out[i])
    ensures forall i, j :: 0 <= i < j < |out| ==> out[i].id != out[j].id && NewestFirst(out[i], out[j])
    ensures forall id :: id in t.lists ==> exists i :: 0 <= i < |out| && out[i].id == id
  {
    var groups := Group(t, Join(t, lists, items, members));
    GroupsDescribeLists(t, lists, items, members);
    ResultDescribes(t, lists, groups, out);
  }

  /** A reordering of distinct summaries is distinct, and has the same elements. */
  lemma ReorderedIsDistinct(groups: seq<Summary>, out: seq<Summary>)
    requires multiset(out) == multiset(groups)
    requires forall i, j :: 0 <= i < j < |groups| ==> groups[i].id != groups[j].id
    ensures forall i :: 0 <= i < |out| ==> out[i] in groups
    ensures forall k :: 0 <= k < |groups| ==> groups[k] in out
    ensures forall i, j :: 0 <= i < j < |out| ==> out[i].id != out[j].id
  {
    forall i | 0 <= i < |out| ensures out[i] in groups {
      assert out[i] in multiset(out);
    }
    forall k | 0 <= k < |groups| ensures groups[k] in out {
      assert groups[k] in multiset(groups);
    }
    forall i, j | 0 <= i < j < |out| ensures out[i].id != out[j].id {
      var a :| 0 <= a < |groups| && groups[a] == out[i];
      var b :| 0 <= b < |groups| && groups[b] == out[j];
      Multiplicity(out, i, j);
      OnlyOnce(groups, a);
    }
  }

  lemma ResultDescribes(t: Tables, lists: seq<Id>, groups: seq<Summary>, out: seq<Summary>)
    requires Ordering.Distinct(lists) && |groups| == |lists| && multiset(out) == multiset(groups)
    requires forall k :: 0 <= k < |lists| ==> Describes(t, lists[k], groups[k])
    requires forall id :: id in t.lists ==> id in lists
    ensures forall i :: 0 <= i < |out| ==> Describes(t, out[i].id, out[i])
    ensures forall i, j :: 0 <= i < j < |out| ==> out[i].id != out[j].id
    ensures forall id :: id in t.lists ==> exists i :: 0 <= i < |out| && out[i].id == id
  {
    assert forall k :: 0 <= k < |lists| ==> groups[k].id == lists[k];
    ReorderedIsDistinct(groups, out);
    forall i | 0 <= i < |out| ensures Describes(t, out[i].id, out[i]) {
      var k :| 0 <= k < |groups| && groups[k] == out[i];
      assert Describes(t, lists[k], groups[k]);
    }
    forall id | id in t.lists ensures exists i :: 0 <= i < |out| && out[i].id == id {
      var k :| 0 <= k < |lists| && lists[k] == id;
      var i :| 0 <= i < |out| && out[i] == groups[k];
    }
  }

  lemma Multiplicity(s: seq<Summary>, i: int, j: int)
    requires 0 <= i < j < |s|
    ensures s[i] == s[j] ==> multiset(s)[s[i]] >= 2
  {
    assert s == s[..j] + [s[j]] + s[j + 1..];
    assert s[i] in s[..j];
    assert s[i] in multiset(s[..j]);
  }

  lemma OnlyOnce(s: seq<Summary>, a: int)
    requires 0 <= a < |s|
    requires forall i, j :: 0 <= i < j < |s| ==> s[i].id != s[j].id
    ensures multiset(s)[s[a]] == 1
  {
    assert s == s[..a] + [s[a]] + s[a + 1..];
    assert s[a] !in s[..a] && s[a] !in s[a + 1..];
    assert s[a] !in multiset(s[..a]) && s[a] !in multiset(s[a + 1..]);
  }
}
