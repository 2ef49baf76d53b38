/**
 Who is credited with buying an item, when service calls run one at a time
 (lists/service.go, adapters/db/items.go).
 */
module BuyerHistory {

  import opened Results
  import opened Store
  import opened CheckState

  /** The tables the i-th call finds. */
  ghost function Before(t: Tables, calls: seq<Call>, i: nat): Tables
    requires i <= |calls|
  {
    History(t, calls[..i])
  }

  /** The call checks the item, or creates it already checked. */
  ghost predicate Checks(t: Tables, call: Call, id: Id) {
    || (call.CheckItem? && call.id == id && Live(t, call.list, id))
    || (call.AddItem? && call.id == id && call.input.checked && Store.Perform(t, call).Ok?)
  }

  /** The call makes a new row of that id. */
  ghost predicate Creates(t: Tables, call: Call, id: Id) {
    || (call.AddItem? && call.id == id && Store.Perform(t, call).Ok?)
    || (call.CopyList? && id in call.ids && Store.Perform(t, call).Ok?)
  }

  /** The call leaves the item without whatever buyer it had: it unchecks or creates it. */
  ghost predicate Clears(t: Tables, call: Call, id: Id) {
    || (call.UncheckItem? && call.id == id && Live(t, call.list, id))
    || Creates(t, call, id)
  }

  ghost predicate ChecksAt(t: Tables, calls: seq<Call>, id: Id, i: int) {
    0 <= i < |calls| && Checks(Before(t, calls, i), calls[i], id)
  }

  ghost predicate ClearsAt(t: Tables, calls: seq<Call>, id: Id, i: int) {
    0 <= i < |calls| && Clears(Before(t, calls, i), calls[i], id)
  }

  /** Call i is the first to check the item since it was last unchecked or created. */
  ghost predicate FirstCheck(t: Tables, calls: seq<Call>, id: Id, i: int) {
    && ChecksAt(t, calls, id, i)
    && (forall j :: i < j < |calls| ==> !ClearsAt(t, calls, id, j))
    && ClearedBy(t, calls, id, i)
  }

  ghost predicate AllCleared(t: Tables, calls: seq<Call>, id: Id) {
    forall j :: ChecksAt(t, calls, id, j) ==> exists k :: j < k && ClearsAt(t, calls, id, k)
  }

  // ---------------------------------------------------------------- one call

  /** The row's buyer is as if the call had checked it, or it is left as it was. */
  ghost predicate Effect(t: Tables, call: Call, id: Id, row: ItemRow) {
    if Clears(t, call, id) then
      && row.checked == Checks(t, call, id)
      && (row.checked ==> row.boughtBy == Some(call.actor) && row.checkedAt == Some(call.now))
    else
      && id in t.items
      && (if Checks(t, call, id) && !t.items[id].checked
          then row.checked && row.boughtBy == Some(call.actor) && row.checkedAt == Some(call.now)
          else SameBuyer(row, t.items[id]))
  }

  predicate SameBuyer(row: ItemRow, was: ItemRow) {
    row.checked == was.checked && row.boughtBy == was.boughtBy && row.checkedAt == was.checkedAt
  }

  lemma OneCopy(t: Tables, call: Call, id: Id)
    requires call.CopyList? && id in After(t, call).items
    ensures Effect(t, call, id, After(t, call).items[id])
  {
    if Store.Perform(t, call).Ok? && id in call.ids {
      var i :| 0 <= i < |call.ids| && call.ids[i] == id;
      CopiedFresh(t.items, DisplayOrder(t.items, call.source), call.ids, call.newId, call.actor, call.now, i);
    }
  }

  lemma OneToggle(t: Tables, call: Call, id: Id)
    requires (call.CheckItem? || call.UncheckItem?) && id in After(t, call).items
    ensures Effect(t, call, id, After(t, call).items[id])
  {
  }

  /** What one call does to an item's buyer. */
  lemma OneCall(t: Tables, call: Call, id: Id)
    requires id in After(t, call).items
    ensures Effect(t, call, id, After(t, call).items[id])
  {
    if call.CopyList? {
      OneCopy(t, call, id);
    } else if call.CheckItem? || call.UncheckItem? {
      OneToggle(t, call, id);
    } else if !call.AddItem? {
      assert id in t.items && SameBuyer(After(t, call).items[id], t.items[id]);
    }
  }

  lemma {:induction false} CopiedFresh(
    items: map<Id, ItemRow>, source: seq<Id>, ids: seq<Id>, list: Id, actor: User, now: Time, i: nat)
    requires |ids| == |source| && i < |ids|
    requires forall id :: id in source ==> id in items
    ensures !InsertCopies(items, source, ids, list, actor, now)[ids[i]].checked
    decreases source
  {
    var last := |source| - 1;
    if i == last {
    } else {
      CopiedFresh(items, source[..last], ids[..last], list, actor, now, i);
    }
  }

  // ---------------------------------------------------------------- whole runs

  lemma {:induction false} HistorySnoc(t: Tables, calls: seq<Call>)
    requires calls != []
    ensures History(t, calls) == After(History(t, calls[..|calls| - 1]), calls[|calls| - 1])
    decreases calls
  {
    if |calls| > 1 {
      HistorySnoc(After(t, calls[0]), calls[1..]);
      assert calls[1..][..|calls| - 2] == calls[..|calls| - 1][1..];
    } else {
      assert calls[1..] == [] && calls[..0] == [];
    }
  }

  lemma {:induction false} HistoryKeepsTables(t: Tables, calls: seq<Call>)
    requires TablesOk(t)
    ensures TablesOk(History(t, calls))
    decreases calls
  {
    if calls == [] {
    } else {
      CallKeepsTables(t, calls[0]);
      HistoryKeepsTables(After(t, calls[0]), calls[1..]);
    }
  }

  /** Looking at a prefix of the run changes nothing about the calls in it. */
  lemma PrefixSame(t: Tables, calls: seq<Call>, id: Id, i: int)
    requires calls != [] && i < |calls| - 1
    ensures var prefix := calls[..|calls| - 1];
            && (ChecksAt(t, calls, id, i) <==> ChecksAt(t, prefix, id, i))
            && (ClearsAt(t, calls, id, i) <==> ClearsAt(t, prefix, id, i))
  {
    if 0 <= i {
      assert calls[..|calls| - 1][..i] == calls[..i];
    }
  }

  /** Every earlier check has been cleared by call i. */
  ghost predicate ClearedBy(t: Tables, calls: seq<Call>, id: Id, i: int) {
    forall j :: j < i && ChecksAt(t, calls, id, j) ==> exists k :: j < k <= i && ClearsAt(t, calls, id, k)
  }

  lemma ClearedByInPrefix(t: Tables, calls: seq<Call>, id: Id, i: int)
    requires calls != [] && i < |calls| - 1
    ensures ClearedBy(t, calls, id, i) <==> ClearedBy(t, calls[..|calls| - 1], id, i)
  {
    var prefix := calls[..|calls| - 1];
    if ClearedBy(t, calls, id, i) {
      forall j | j < i && ChecksAt(t, prefix, id, j) ensures exists k :: j < k <= i && ClearsAt(t, prefix, id, k) {
        PrefixSame(t, calls, id, j);
        var k :| j < k <= i && ClearsAt(t, calls, id, k);
        PrefixSame(t, calls, id, k);
      }
    }
    if ClearedBy(t, prefix, id, i) {
      forall j | j < i && ChecksAt(t, calls, id, j) ensures exists k :: j < k <= i && ClearsAt(t, calls, id, k) {
        PrefixSame(t, calls, id, j);
        var k :| j < k <= i && ClearsAt(t, prefix, id, k);
        PrefixSame(t, calls, id, k);
      }
    }
  }

  lemma FirstCheckInPrefix(t: Tables, calls: seq<Call>, id: Id, i: int)
    requires calls != [] && i < |calls| - 1
    ensures FirstCheck(t, calls, id, i) <==>
            FirstCheck(t, calls[..|calls| - 1], id, i) && !ClearsAt(t, calls, id, |calls| - 1)
  {
    var prefix := calls[..|calls| - 1];
    PrefixSame(t, calls, id, i);
    ClearedByInPrefix(t, calls, id, i);
    forall j | i < j < |calls| - 1 ensures ClearsAt(t, calls, id, j) <==> ClearsAt(t, prefix, id, j) {
      PrefixSame(t, calls, id, j);
    }
  }

  lemma AllClearedInPrefix(t: Tables, calls: seq<Call>, id: Id)
    requires calls != []
    requires AllCleared(t, calls[..|calls| - 1], id) || ClearsAt(t, calls, id, |calls| - 1)
    ensures forall j :: j < |calls| - 1 && ChecksAt(t, calls, id, j) ==> exists k :: j < k && ClearsAt(t, calls, id, k)
  {
    var prefix := calls[..|calls| - 1];
    forall j | j < |calls| - 1 && ChecksAt(t, calls, id, j)
      ensures exists k :: j < k && ClearsAt(t, calls, id, k)
    {
      if !ClearsAt(t, calls, id, |calls| - 1) {
        PrefixSame(t, calls, id, j);
        var k :| j < k && ClearsAt(t, prefix, id, k);
        PrefixSame(t, calls, id, k);
      }
    }
  }

  /** The buyer and the check time are those of the standing first check, if there is one. */
  ghost predicate Explained(t: Tables, calls: seq<Call>, id: Id) {
    var items := History(t, calls).items;
    id in items ==>
      var row := items[id];
      && (row.checked <==> exists i :: FirstCheck(t, calls, id, i))
      && (forall i :: FirstCheck(t, calls, id, i) ==>
            row.boughtBy == Some(calls[i].actor) && row.checkedAt == Some(calls[i].now))
      && (!row.checked ==> AllCleared(t, calls, id))
  }

  lemma ClearingExplains(t: Tables, calls: seq<Call>, id: Id)
    requires calls != []
    requires ClearsAt(t, calls, id, |calls| - 1)
    ensures Explained(t, calls, id)
  {
    var last := |calls| - 1;
    HistorySnoc(t, calls);
    if id in History(t, calls).items {
      OneCall(Before(t, calls, last), calls[last], id);
      AllClearedInPrefix(t, calls, id);
      forall i | i < last ensures !FirstCheck(t, calls, id, i) {
      }
      assert FirstCheck(t, calls, id, last) <==> ChecksAt(t, calls, id, last);
    }
  }

  /** While nothing clears the item, an earlier first check stays the first. */
  lemma StandingStays(t: Tables, calls: seq<Call>, id: Id, i: int)
    requires calls != [] && FirstCheck(t, calls[..|calls| - 1], id, i)
    requires !ClearsAt(t, calls, id, |calls| - 1)
    ensures i < |calls| - 1 && FirstCheck(t, calls, id, i) && !FirstCheck(t, calls, id, |calls| - 1)
  {
    FirstCheckInPrefix(t, calls, id, i);
    assert ChecksAt(t, calls, id, i);
  }

  lemma StandingExplains(t: Tables, calls: seq<Call>, id: Id)
    requires calls != [] && !ClearsAt(t, calls, id, |calls| - 1)
    requires Explained(t, calls[..|calls| - 1], id)
    requires var items, before := History(t, calls).items, Before(t, calls, |calls| - 1).items;
             id in items && id in before && before[id].checked && SameBuyer(items[id], before[id])
    ensures Explained(t, calls, id)
  {
    var prefix := calls[..|calls| - 1];
    var i :| FirstCheck(t, prefix, id, i);
    StandingStays(t, calls, id, i);
    var row := History(t, calls).items[id];
    forall j | FirstCheck(t, calls, id, j)
      ensures row.boughtBy == Some(calls[j].actor) && row.checkedAt == Some(calls[j].now)
    {
      assert ChecksAt(t, calls, id, j);
      FirstCheckInPrefix(t, calls, id, j);
      assert calls[j] == prefix[j];
    }
  }

  /** On an open item, no earlier first check stands. */
  lemma NoneStands(t: Tables, calls: seq<Call>, id: Id)
    requires calls != [] && Explained(t, calls[..|calls| - 1], id)
    requires var before := Before(t, calls, |calls| - 1); id in before.items && !before.items[id].checked
    ensures forall i :: i < |calls| - 1 ==> !FirstCheck(t, calls, id, i)
    ensures forall j :: j < |calls| - 1 && ChecksAt(t, calls, id, j) ==> exists k :: j < k && ClearsAt(t, calls, id, k)
  {
    AllClearedInPrefix(t, calls, id);
    forall i | i < |calls| - 1 ensures !FirstCheck(t, calls, id, i) {
      FirstCheckInPrefix(t, calls, id, i);
    }
  }

  lemma NewlyCheckedExplains(t: Tables, calls: seq<Call>, id: Id)
    requires calls != [] && ChecksAt(t, calls, id, |calls| - 1)
    requires forall i :: FirstCheck(t, calls, id, i) <==> i == |calls| - 1
    requires id in History(t, calls).items
    requires var (row, last) := (History(t, calls).items[id], calls[|calls| - 1]);
             row.checked && row.boughtBy == Some(last.actor) && row.checkedAt == Some(last.now)
    ensures Explained(t, calls, id)
  {
    assert FirstCheck(t, calls, id, |calls| - 1);
  }

  lemma CheckingExplains(t: Tables, calls: seq<Call>, id: Id)
    requires calls != [] && Explained(t, calls[..|calls| - 1], id)
    requires !ClearsAt(t, calls, id, |calls| - 1)
    ensures Explained(t, calls, id)
  {
    HistorySnoc(t, calls);
    if id in History(t, calls).items {
      var before := Before(t, calls, |calls| - 1);
      OneCall(before, calls[|calls| - 1], id);
      if before.items[id].checked {
        StandingExplains(t, calls, id);
      } else {
        NoneStands(t, calls, id);
        if ChecksAt(t, calls, id, |calls| - 1) {
          NewlyCheckedExplains(t, calls, id);
        }
      }
    }
  }

  lemma {:induction false} EveryRunExplains(t: Tables, calls: seq<Call>, id: Id)
    requires id !in t.items
    ensures Explained(t, calls, id)
    decreases calls
  {
    if calls == [] {
    } else {
      var last := |calls| - 1;
      EveryRunExplains(t, calls[..last], id);
      if ClearsAt(t, calls, id, last) {
        ClearingExplains(t, calls, id);
      } else {
        CheckingExplains(t, calls, id);
      }
    }
  }

  /**
   With service calls run one at a time, an item is checked exactly when a first
   check since its last uncheck (or creation) stands, and then its buyer and check
   time are that check's, through any number of re-checks, edits, deletes and
   restores.
   */
  lemma BuyerIsTheFirstToCheck(t: Tables, calls: seq<Call>, id: Id)
    requires TablesOk(t) && id !in t.items && id in History(t, calls).items
    ensures var row := History(t, calls).items[id];
            && (row.checked <==> exists i :: FirstCheck(t, calls, id, i))
            && (forall i :: FirstCheck(t, calls, id, i) ==>
                  row.boughtBy == Some(calls[i].actor) && row.checkedAt == Some(calls[i].now))
            && (!row.checked ==> row.boughtBy.None? && row.checkedAt.None?)
  {
    EveryRunExplains(t, calls, id);
    HistoryKeepsTables(t, calls);
    assert Consistent(History(t, calls).items[id]);
  }
}
