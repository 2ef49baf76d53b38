/** ORDER BY rank, id: a strict order on rows, because ids are unique. */
module Ordering {

  type Id = nat

  predicate Before(rank: Id -> int, a: Id, b: Id) {
    rank(a) < rank(b) || (rank(a) == rank(b) && a < b)
  }

  predicate Ordered(rank: Id -> int, ids: seq<Id>) {
    forall i, j :: 0 <= i < j < |ids| ==> Before(rank, ids[i], ids[j])
  }

  function Elements(ids: seq<Id>): set<Id> {
    set id | id in ids
  }

  predicate Distinct(ids: seq<Id>) {
    forall i, j :: 0 <= i < j < |ids| ==> ids[i] != ids[j]
  }

  function Insert(rank: Id -> int, id: Id, ids: seq<Id>): seq<Id> {
    if ids == [] || Before(rank, id, ids[0]) then [id] + ids else [ids[0]] + Insert(rank, id, ids[1..])
  }

  function Sort(rank: Id -> int, ids: seq<Id>): seq<Id> {
    if ids == [] then [] else Insert(rank, ids[0], Sort(rank, ids[1..]))
  }

  lemma {:induction false} InsertOrders(rank: Id -> int, id: Id, ids: seq<Id>)
    requires Ordered(rank, ids) && id !in ids
    ensures Ordered(rank, Insert(rank, id, ids))
    ensures Elements(Insert(rank, id, ids)) == Elements(ids) + {id}
    decreases ids
  {
    var r := Insert(rank, id, ids);
    if ids == [] || Before(rank, id, ids[0]) {
      forall i, j | 0 <= i < j < |r| ensures Before(rank, r[i], r[j]) {
        if i == 0 && j > 1 {
          assert Before(rank, ids[0], ids[j - 1]);
        }
      }
    } else {
      var rest := Insert(rank, id, ids[1..]);
      InsertOrders(rank, id, ids[1..]);
      forall i, j | 0 <= i < j < |r| ensures Before(rank, r[i], r[j]) {
        if i == 0 {
          assert r[j] == rest[j - 1] && rest[j - 1] in Elements(rest);
          if rest[j - 1] != id {
            assert rest[j - 1] in ids[1..];
          }
        }
      }
      assert ids == [ids[0]] + ids[1..];
      assert Elements(ids) == {ids[0]} + Elements(ids[1..]);
      assert Elements(r) == {ids[0]} + Elements(rest);
    }
  }

  lemma {:induction false} SortOrders(rank: Id -> int, ids: seq<Id>)
    requires Distinct(ids)
    ensures Ordered(rank, Sort(rank, ids))
    ensures Elements(Sort(rank, ids)) == Elements(ids)
    decreases ids
  {
    if ids == [] {
    } else {
      SortOrders(rank, ids[1..]);
      assert ids == [ids[0]] + ids[1..];
      assert ids[0] !in Sort(rank, ids[1..]) by {
        assert ids[0] !in ids[1..];
        assert ids[0] !in Elements(Sort(rank, ids[1..]));
      }
      InsertOrders(rank, ids[0], Sort(rank, ids[1..]));
    }
  }

  lemma TailElements(ids: seq<Id>)
    requires ids != [] && Distinct(ids)
    ensures Distinct(ids[1..]) && Elements(ids[1..]) == Elements(ids) - {ids[0]}
  {
    assert ids == [ids[0]] + ids[1..];
    forall id | id in ids[1..] ensures id != ids[0] {
      var i :| 0 <= i < |ids| - 1 && ids[1..][i] == id;
      assert ids[i + 1] == id;
    }
  }

  lemma SomeElement(ids: seq<Id>)
    ensures ids != [] ==> Elements(ids) != {}
  {
    if ids != [] {
      assert ids[0] in Elements(ids);
    }
  }

  /** There is one way only to put a set of rows in order. */
  lemma {:induction false} OrderIsUnique(rank: Id -> int, a: seq<Id>, b: seq<Id>)
    requires Ordered(rank, a) && Ordered(rank, b) && Elements(a) == Elements(b)
    ensures a == b
    decreases a
  {
    if a == [] {
      SomeElement(b);
    } else {
      assert a[0] in Elements(b);
      assert b[0] in Elements(a);
      TailElements(a);
      TailElements(b);
      OrderIsUnique(rank, a[1..], b[1..]);
      assert a == [a[0]] + a[1..] && b == [b[0]] + b[1..];
    }
  }

  /** The rows of a set in some order, as an unordered scan delivers them. */
  ghost function Enumerate(ids: set<Id>): (r: seq<Id>)
    ensures Distinct(r) && Elements(r) == ids
    decreases |ids|
  {
    if ids == {} then []
    else
      var id :| id in ids;
      var rest := Enumerate(ids - {id});
      assert Elements([id] + rest) == {id} + Elements(rest);
      assert id !in rest by { assert id !in Elements(rest); }
      [id] + rest
  }

  ghost function InOrder(rank: Id -> int, ids: set<Id>): (r: seq<Id>)
    ensures Ordered(rank, r) && Elements(r) == ids && Distinct(r)
  {
    SortOrders(rank, Enumerate(ids));
    Sort(rank, Enumerate(ids))
  }
}
