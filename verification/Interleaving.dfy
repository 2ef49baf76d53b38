/**
 When the separate reads and writes of checks and unchecks make no difference
 (lists/service.go): as long as no write finds its item already in the state it sets,
 an interleaved run comes to the same tables as its calls run one at a time.
 */
module Interleaving {

  import opened Results
  import opened Store
  import opened CheckState
  import opened BuyerHistory
  import Identity

  /** The write finds its item already in the state it is about to set. */
  predicate Stale(s: Sys, step: Step) {
    && step.WriteCheck? && step.request in s.pending
    && var p := s.pending[step.request];
    Live(s.t, p.list, p.item) && s.t.items[p.item].checked == p.checked
  }

  ghost predicate NeverStale(s: Sys, steps: seq<Step>)
    decreases steps
  {
    steps != [] ==> !Stale(s, steps[0]) && NeverStale(Next(s, steps[0]), steps[1..])
  }

  predicate NoMerge(steps: seq<Step>) {
    forall i :: 0 <= i < |steps| ==> !steps[i].Merge?
  }

  function AtomicCall(p: Pending, now: Time): Call {
    if p.checked then CheckItem(p.item, p.list, p.actor, now) else UncheckItem(p.item, p.list, now)
  }

  /** What a step does, as calls run in one go: a write is a whole check or uncheck, a read nothing. */
  function AtomicStep(s: Sys, step: Step): seq<Call> {
    match step
    case Perform(call) => if call.CheckItem? || call.UncheckItem? then [] else [call]
    case WriteCheck(request, now) => if request in s.pending then [AtomicCall(s.pending[request], now)] else []
    case _ => []
  }

  ghost function AtomicRun(s: Sys, steps: seq<Step>): seq<Call>
    decreases steps
  {
    if steps == [] then [] else AtomicStep(s, steps[0]) + AtomicRun(Next(s, steps[0]), steps[1..])
  }

  /** The row as the write makes it. */
  function Written(p: Pending, row: ItemRow, now: Time): ItemRow {
    row.(checked := p.checked, checkedAt := if p.checked then Some(now) else None,
         boughtBy := if p.checked then Some(p.actor) else None, updatedAt := now)
  }

  /**
   A write does what the whole call would do at that instant exactly when it is not
   stale, or it happens to write the very row that is there.
   */
  lemma WriteIsAtomic(s: Sys, step: Step)
    requires step.WriteCheck? && step.request in s.pending
    ensures var p := s.pending[step.request];
            var t' := After(s.t, AtomicCall(p, step.now));
            && (Next(s, step).t == t' <==>
                  !Stale(s, step) || s.t.items[p.item] == Written(p, s.t.items[p.item], step.now))
            && (Stale(s, step) ==> t' == s.t)
  {
    var p := s.pending[step.request];
    if Stale(s, step) {
      var row := Written(p, s.t.items[p.item], step.now);
      assert Next(s, step).t.items == s.t.items[p.item := row];
      if s.t.items[p.item] == row {
        assert s.t.items[p.item := row] == s.t.items;
      } else {
        assert Next(s, step).t.items[p.item] != s.t.items[p.item];
      }
    }
  }

  lemma {:induction false} HistoryConcat(t: Tables, calls: seq<Call>, more: seq<Call>)
    ensures History(t, calls + more) == History(History(t, calls), more)
    decreases calls
  {
    if calls == [] {
      assert [] + more == more;
    } else {
      assert (calls + more)[0] == calls[0] && (calls + more)[1..] == calls[1..] + more;
      HistoryConcat(After(t, calls[0]), calls[1..], more);
    }
  }

  /**
   An interleaved run in which no write is stale comes to the tables of a run of whole
   calls, each at the instant of its write.
   */
  lemma {:induction false} Linearizes(s: Sys, steps: seq<Step>)
    requires NoMerge(steps) && NeverStale(s, steps)
    ensures Run(s, steps).t == History(s.t, AtomicRun(s, steps))
    decreases steps
  {
    if steps == [] {
    } else {
      var rest := steps[1..];
      assert forall i :: 0 <= i < |rest| ==> rest[i] == steps[i + 1];
      Linearizes(Next(s, steps[0]), rest);
      HistoryConcat(s.t, AtomicStep(s, steps[0]), AtomicRun(Next(s, steps[0]), rest));
    }
  }

  /**
   So in such a run too an item is checked exactly when a first write of a check since
   the last uncheck or creation stands, and its buyer and check time are that one's.
   */
  lemma BuyerIsTheFirstToWrite(s: Sys, steps: seq<Step>, id: Id)
    requires TablesOk(s.t) && id !in s.t.items && NoMerge(steps) && NeverStale(s, steps)
    requires id in Run(s, steps).t.items
    ensures var row, calls := Run(s, steps).t.items[id], AtomicRun(s, steps);
            && (row.checked <==> exists i :: FirstCheck(s.t, calls, id, i))
            && (forall i :: FirstCheck(s.t, calls, id, i) ==>
                  row.boughtBy == Some(calls[i].actor) && row.checkedAt == Some(calls[i].now))
            && (!row.checked ==> row.boughtBy.None? && row.checkedAt.None?)
  {
    Linearizes(s, steps);
    BuyerIsTheFirstToCheck(s.t, AtomicRun(s, steps), id);
  }

  /**
   A pending check written onto an item that is checked by then keeps its buyer exactly
   when that buyer is the one who is checking, and its check time exactly when it is
   the same instant; nothing else but the update time changes.
   */
  lemma StaleCheckReplacesTheBuyer(s: Sys, request: nat, now: Time)
    requires TablesOk(s.t) && request in s.pending && s.pending[request].checked
    requires Stale(s, WriteCheck(request, now))
    ensures var p := s.pending[request];
            var was, row := s.t.items[p.item], Next(s, WriteCheck(request, now)).t.items[p.item];
            && (row.boughtBy == was.boughtBy <==> was.boughtBy == Some(p.actor))
            && (row.checkedAt == was.checkedAt <==> was.checkedAt == Some(now))
            && row == was.(boughtBy := Some(p.actor), checkedAt := Some(now), updatedAt := now)
  {
  }

  /** A stale uncheck changes nothing but the update time. */
  lemma StaleUncheckIsHarmless(s: Sys, request: nat, now: Time)
    requires TablesOk(s.t) && request in s.pending && !s.pending[request].checked
    requires Stale(s, WriteCheck(request, now))
    ensures var id := s.pending[request].item;
            Next(s, WriteCheck(request, now)).t == s.t.(items := s.t.items[id := s.t.items[id].(updatedAt := now)])
  {
    var id := s.pending[request].item;
    assert Consistent(s.t.items[id]);
  }

  // ---------------------------------------------------------------- who has the item in the end

  /** The step checks the item, stale or not, or creates it already checked. */
  ghost predicate Writes(s: Sys, step: Step, id: Id) {
    match step
    case WriteCheck(request, _) =>
      request in s.pending && s.pending[request].checked && s.pending[request].item == id
      && Live(s.t, s.pending[request].list, id)
    case Perform(call) => call.AddItem? && Checks(s.t, call, id)
    case _ => false
  }

  /** The step unchecks the item, or makes a new row of that id. */
  ghost predicate Wipes(s: Sys, step: Step, id: Id) {
    match step
    case WriteCheck(request, _) =>
      request in s.pending && !s.pending[request].checked && s.pending[request].item == id
      && Live(s.t, s.pending[request].list, id)
    case Perform(call) => Creates(s.t, call, id)
    case _ => false
  }

  function Writer(s: Sys, step: Step): Option<User> {
    match step
    case WriteCheck(request, _) => if request in s.pending then Some(s.pending[request].actor) else None
    case Perform(AddItem(_, _, _, actor, _)) => Some(actor)
    case _ => None
  }

  function Moment(step: Step): Option<Time> {
    match step
    case WriteCheck(_, now) => Some(now)
    case Perform(AddItem(_, _, _, _, now)) => Some(now)
    case _ => None
  }

  /** The system the i-th step finds. */
  ghost function Found(s: Sys, steps: seq<Step>, i: nat): Sys
    requires i <= |steps|
  {
    Run(s, steps[..i])
  }

  ghost predicate WritesAt(s: Sys, steps: seq<Step>, id: Id, i: int) {
    0 <= i < |steps| && Writes(Found(s, steps, i), steps[i], id)
  }

  ghost predicate WipesAt(s: Sys, steps: seq<Step>, id: Id, i: int) {
    0 <= i < |steps| && Wipes(Found(s, steps, i), steps[i], id)
  }

  ghost function WriterAt(s: Sys, steps: seq<Step>, i: nat): Option<User>
    requires i < |steps|
  {
    Writer(Found(s, steps, i), steps[i])
  }

  ghost predicate LastWrite(s: Sys, steps: seq<Step>, id: Id, i: int) {
    WritesAt(s, steps, id, i) && forall j :: i < j ==> !WritesAt(s, steps, id, j) && !WipesAt(s, steps, id, j)
  }

  /** The first write since the item was last unchecked or created. */
  ghost predicate FirstWrite(s: Sys, steps: seq<Step>, id: Id, i: int) {
    && WritesAt(s, steps, id, i)
    && (forall j :: i < j ==> !WipesAt(s, steps, id, j))
    && (forall j :: j < i && WritesAt(s, steps, id, j) ==> exists k :: j < k <= i && WipesAt(s, steps, id, k))
  }

  /** What a step makes of a credited user: a merge that goes through hands the credit on. */
  ghost function HandedOn(s: Sys, step: Step, u: Option<User>): Option<User> {
    if step.Merge? then Identity.Image(s.t, [Identity.Pair(step.source, step.target)], u) else u
  }

  /** A credited user's image under the merges from the i-th step on. */
  ghost function CreditAfter(s: Sys, steps: seq<Step>, i: nat, u: Option<User>): Option<User>
    decreases steps
  {
    if |steps| <= i then u
    else
      var n := |steps| - 1;
      HandedOn(Found(s, steps, n), steps[n], CreditAfter(s, steps[..n], i, u))
  }

  lemma {:induction false} NobodyMerged(s: Sys, steps: seq<Step>, i: nat, u: Option<User>)
    requires NoMerge(steps)
    ensures CreditAfter(s, steps, i, u) == u
    decreases steps
  {
    if |steps| <= i {
    } else {
      NobodyMerged(s, steps[..|steps| - 1], i, u);
    }
  }

  lemma MergeBuyer(s: Sys, step: Step, id: Id)
    requires step.Merge? && id in Next(s, step).t.items
    ensures id in s.t.items
    ensures var (row, was) := (Next(s, step).t.items[id], s.t.items[id]);
            row.checked == was.checked && row.checkedAt == was.checkedAt && row.boughtBy == HandedOn(s, step, was.boughtBy)
  {
    var merges := [Identity.Pair(step.source, step.target)];
    assert merges[1..] == [];
    Identity.MergesConserveRows(s.t, merges);
  }

  /** What one step does to an item's buyer. */
  lemma StepBuyer(s: Sys, step: Step, id: Id)
    requires id in Next(s, step).t.items
    ensures var row := Next(s, step).t.items[id];
            && (Writes(s, step, id) ==> row.checked && row.boughtBy == Writer(s, step) && row.checkedAt == Moment(step))
            && (!Writes(s, step, id) && Wipes(s, step, id) ==> !row.checked)
            && (!Writes(s, step, id) && !Wipes(s, step, id) ==>
                  && id in s.t.items && row.checked == s.t.items[id].checked && row.checkedAt == s.t.items[id].checkedAt
                  && row.boughtBy == HandedOn(s, step, s.t.items[id].boughtBy))
  {
    if step.Merge? {
      MergeBuyer(s, step, id);
    } else if step.Perform? && !step.call.CheckItem? && !step.call.UncheckItem? {
      OneCall(s.t, step.call, id);
    }
  }

  lemma {:induction false} RunSnoc(s: Sys, steps: seq<Step>)
    requires steps != []
    ensures Run(s, steps) == Next(Run(s, steps[..|steps| - 1]), steps[|steps| - 1])
    decreases steps
  {
    if |steps| == 1 {
      assert steps[1..] == [] && steps[..0] == [];
    } else {
      RunSnoc(Next(s, steps[0]), steps[1..]);
      assert steps[1..][..|steps| - 2] == steps[..|steps| - 1][1..];
    }
  }

  lemma FoundInPrefix(s: Sys, steps: seq<Step>, id: Id, n: nat, i: int)
    requires n <= |steps| && i < n
    ensures WritesAt(s, steps[..n], id, i) <==> WritesAt(s, steps, id, i)
    ensures WipesAt(s, steps[..n], id, i) <==> WipesAt(s, steps, id, i)
    ensures 0 <= i ==> Found(s, steps[..n], i) == Found(s, steps, i)
  {
    if 0 <= i {
      assert steps[..n][..i] == steps[..i];
    }
  }

  lemma LastWriteInPrefix(s: Sys, steps: seq<Step>, id: Id, i: int)
    requires steps != [] && i < |steps| - 1
    requires !WritesAt(s, steps, id, |steps| - 1) && !WipesAt(s, steps, id, |steps| - 1)
    ensures LastWrite(s, steps, id, i) <==> LastWrite(s, steps[..|steps| - 1], id, i)
  {
    var n := |steps| - 1;
    forall j | j < n
      ensures WritesAt(s, steps[..n], id, j) <==> WritesAt(s, steps, id, j)
      ensures WipesAt(s, steps[..n], id, j) <==> WipesAt(s, steps, id, j)
    {
      FoundInPrefix(s, steps, id, n, j);
    }
  }

  /**
   Over every interleaved run, stale writes, merges and all, an item is checked exactly
   when it has been written checked since it was last unchecked or created. Its check time
   is that of the last such write, and its buyer whoever that one's writer has been merged
   into since.
   */
  lemma {:induction false} BuyerIsTheLastToWrite(s: Sys, steps: seq<Step>, id: Id)
    requires id !in s.t.items && id in Run(s, steps).t.items
    ensures var row := Run(s, steps).t.items[id];
            && (row.checked <==> exists i :: LastWrite(s, steps, id, i))
            && (forall i :: LastWrite(s, steps, id, i) ==>
                  && row.boughtBy == CreditAfter(s, steps, i + 1, WriterAt(s, steps, i))
                  && row.checkedAt == Moment(steps[i]))
    decreases steps
  {
    if steps == [] {
    } else {
      var n := |steps| - 1;
      var found := Found(s, steps, n);
      RunSnoc(s, steps);
      StepBuyer(found, steps[n], id);
      forall i | LastWrite(s, steps, id, i) ensures 0 <= i <= n {
      }
      if WritesAt(s, steps, id, n) {
        assert LastWrite(s, steps, id, n);
      } else if WipesAt(s, steps, id, n) {
        forall i ensures !LastWrite(s, steps, id, i) {
          if i < n {
            assert WipesAt(s, steps, id, n);
          }
        }
      } else {
        BuyerIsTheLastToWrite(s, steps[..n], id);
        LastWritesStay(s, steps, id);
        var row := Run(s, steps).t.items[id];
        if row.checked {
          var i :| LastWrite(s, steps[..n], id, i);
          assert LastWrite(s, steps, id, i);
        }
        if i :| LastWrite(s, steps, id, i) {
          assert LastWrite(s, steps[..n], id, i);
        }
      }
    }
  }

  lemma LastWritesStay(s: Sys, steps: seq<Step>, id: Id)
    requires steps != [] && !WritesAt(s, steps, id, |steps| - 1) && !WipesAt(s, steps, id, |steps| - 1)
    ensures forall i :: LastWrite(s, steps, id, i) <==> LastWrite(s, steps[..|steps| - 1], id, i)
    ensures forall i :: LastWrite(s, steps, id, i) ==>
              0 <= i < |steps| - 1 && WriterAt(s, steps, i) == WriterAt(s, steps[..|steps| - 1], i)
              && steps[i] == steps[..|steps| - 1][i]
  {
    var n := |steps| - 1;
    forall i ensures LastWrite(s, steps, id, i) <==> LastWrite(s, steps[..n], id, i) {
      if i < n {
        LastWriteInPrefix(s, steps, id, i);
      }
    }
    forall i | LastWrite(s, steps, id, i)
      ensures 0 <= i < n && WriterAt(s, steps, i) == WriterAt(s, steps[..n], i) && steps[i] == steps[..n][i]
    {
      FoundInPrefix(s, steps, id, n, i);
    }
  }

  lemma {:induction false} SomeWriteIsLast(s: Sys, steps: seq<Step>, id: Id, i: int) returns (last: int)
    requires WritesAt(s, steps, id, i)
    requires forall j :: i < j ==> !WipesAt(s, steps, id, j)
    ensures i <= last && LastWrite(s, steps, id, last)
    decreases |steps| - i
  {
    if j :| i < j && WritesAt(s, steps, id, j) {
      last := SomeWriteIsLast(s, steps, id, j);
    } else {
      last := i;
    }
  }

  /**
   So the first to check an item since it was last unchecked or created still has it at
   the end exactly when the last to do so is, after all merges, the same person; and
   everyone who wrote a check in between did so onto an item already checked.
   */
  lemma FirstKeepsTheItem(s: Sys, steps: seq<Step>, id: Id, first: nat, last: nat)
    requires id !in s.t.items && id in Run(s, steps).t.items
    requires FirstWrite(s, steps, id, first) && LastWrite(s, steps, id, last)
    ensures first <= last
    ensures Run(s, steps).t.items[id].boughtBy == CreditAfter(s, steps, first + 1, WriterAt(s, steps, first))
            <==> CreditAfter(s, steps, last + 1, WriterAt(s, steps, last))
                 == CreditAfter(s, steps, first + 1, WriterAt(s, steps, first))
    ensures forall j :: first < j && WritesAt(s, steps, id, j) ==> Stale(Found(s, steps, j), steps[j])
  {
    BuyerIsTheLastToWrite(s, steps, id);
    var end := SomeWriteIsLast(s, steps, id, first);
    assert end == last;
    forall j | first < j && WritesAt(s, steps, id, j) ensures Stale(Found(s, steps, j), steps[j]) {
      LaterWritesAreStale(s, steps, id, first, j);
    }
  }

  lemma LaterWritesAreStale(s: Sys, steps: seq<Step>, id: Id, first: nat, j: nat)
    requires id !in s.t.items && first < j
    requires FirstWrite(s, steps, id, first) && WritesAt(s, steps, id, j)
    ensures Stale(Found(s, steps, j), steps[j])
  {
    var prefix := steps[..j];
    assert !WipesAt(s, steps, id, j);
    assert steps[j].WriteCheck?;
    FoundInPrefix(s, steps, id, j, first);
    forall k | first < k ensures !WipesAt(s, prefix, id, k) {
      if k < j {
        FoundInPrefix(s, steps, id, j, k);
      }
    }
    var last := SomeWriteIsLast(s, prefix, id, first);
    BuyerIsTheLastToWrite(s, prefix, id);
  }
}
