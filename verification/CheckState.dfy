/**
 What every stored item keeps, when service calls of many users interleave
 statement by statement with each other and with merges (lists/service.go,
 adapters/db/items.go, adapters/db/lists.go, adapters/db/identity.go).
 */
module CheckState {

  import opened Results
  import opened ListRules
  import opened Store
  import Identity

  /** A check or uncheck that has read its item and is about to write. */
  datatype Pending = Pending(list: Id, item: Id, checked: bool, actor: User)

  datatype Sys = Sys(t: Tables, pending: map<nat, Pending>)

  /**
   Checking and unchecking take two steps, a read and a write; every other call is
   one statement or one transaction.
   */
  datatype Step =
    | Perform(call: Call)
    | ReadForCheck(request: nat, list: Id, item: Id, checked: bool, actor: User)
    | WriteCheck(request: nat, now: Time)
    | Merge(source: Identity.Identity, target: Identity.Identity)

  ghost function Next(s: Sys, step: Step): Sys {
    match step
    case Perform(call) =>
      if call.CheckItem? || call.UncheckItem? then s else s.(t := After(s.t, call))
    case ReadForCheck(request, list, item, checked, actor) =>
      var read := ReadItem(s.t, list, item);
      if request in s.pending || read.Err? || read.value.checked == checked then s
      else s.(pending := s.pending[request := Pending(list, item, checked, actor)])
    case WriteCheck(request, now) =>
      if request !in s.pending then s
      else
        var p := s.pending[request];
        var written := SetChecked(s.t, p.list, p.item, p.checked, if p.checked then Some(now) else None,
                                  if p.checked then Some(p.actor) else None, now);
        Sys(Left(s.t, written), s.pending - {request})
    case Merge(source, target) =>
      s.(t := Left(s.t, Identity.Merge(s.t, source, target)))
  }

  ghost function Run(s: Sys, steps: seq<Step>): Sys
    decreases steps
  {
    if steps == [] then s else Run(Next(s, steps[0]), steps[1..])
  }

  // ---------------------------------------------------------------- the invariant

  /** Checked exactly when it has a check time, and exactly when it has a buyer. */
  predicate Consistent(row: ItemRow) {
    (row.checked <==> row.checkedAt.Some?) && (row.checked <==> row.boughtBy.Some?)
  }

  /** What the CHECK constraints and the domain rules demand of a stored item. */
  predicate Clean(row: ItemRow) {
    CleanName(row.name) && row.quantity >= 1 && row.unit in Units() && CleanNote(row.note)
  }

  ghost predicate RowsOk(items: map<Id, ItemRow>) {
    forall id :: id in items ==> Consistent(items[id]) && Clean(items[id])
  }

  ghost predicate NamesOk(lists: map<Id, ListRow>) {
    forall id :: id in lists ==> CleanName(lists[id].name)
  }

  /** Every item is on a list. */
  ghost predicate Referenced(t: Tables) {
    forall id :: id in t.items ==> t.items[id].listId in t.lists
  }

  ghost predicate TablesOk(t: Tables) {
    RowsOk(t.items) && NamesOk(t.lists) && Referenced(t)
  }

  lemma CleanedInput(input: ItemInput)
    requires CleanInput(input).Ok?
    ensures var i := CleanInput(input).value;
            CleanName(i.name) && i.quantity >= 1 && i.unit in Units() && CleanNote(i.note) && i.checked == input.checked
  {
    ValidationCleans(input.name, input.unit, input.note);
  }

  lemma CleanedUpdate(u: ItemUpdate)
    requires CleanUpdate(u).Ok?
    ensures var v := CleanUpdate(u).value;
            && (v.name.Some? ==> CleanName(v.name.value)) && (v.quantity.Some? ==> v.quantity.value >= 1)
            && (v.unit.Some? ==> v.unit.value in Units()) && (v.noteSet ==> CleanNote(v.note))
  {
    ValidationCleans(if u.name.Some? then u.name.value else "", if u.unit.Some? then u.unit.value else "", u.note);
  }

  /** A row written over another keeps the table in order if it is in order itself. */
  lemma WriteOk(t: Tables, id: Id, row: ItemRow)
    requires TablesOk(t) && Consistent(row) && Clean(row) && row.listId in t.lists
    ensures TablesOk(t.(items := t.items[id := row]))
  {
  }

  lemma CopyOk(t: Tables, source: Id, newId: Id, name: string, ids: seq<Id>, actor: User, now: Time)
    requires TablesOk(t) && CleanName(name) && CopyListRows(t, source, newId, name, ids, actor, now).Ok?
    ensures TablesOk(CopyListRows(t, source, newId, name, ids, actor, now).value)
  {
    CopiesOk(t.items, DisplayOrder(t.items, source), ids, newId, actor, now);
  }

  lemma {:induction false} CopiesOk(
    items: map<Id, ItemRow>, source: seq<Id>, ids: seq<Id>, list: Id, actor: User, now: Time)
    requires |ids| == |source| && RowsOk(items)
    requires forall id :: id in source ==> id in items
    ensures var r := InsertCopies(items, source, ids, list, actor, now);
            RowsOk(r) && forall id :: id in r ==> r[id].listId == list || (id in items && r[id].listId == items[id].listId)
    decreases source
  {
    if source == [] {
    } else {
      var last := |source| - 1;
      CopiesOk(items, source[..last], ids[..last], list, actor, now);
      assert Clean(items[source[last]]);
    }
  }

  lemma CopyCallOk(t: Tables, source: Id, newId: Id, name: string, actor: User, ids: seq<Id>, now: Time)
    requires TablesOk(t) && ServiceCopyList(t, source, newId, name, actor, ids, now).Ok?
    ensures TablesOk(ServiceCopyList(t, source, newId, name, actor, ids, now).value)
  {
    if name == "" {
      ValidationCleans(t.lists[source].name, "", None);
      CopyNameIsValid(t.lists[source].name);
      CopyOk(t, source, newId, CopyListName(t.lists[source].name), ids, actor, now);
    } else {
      ValidationCleans(name, "", None);
      CopyOk(t, source, newId, ValidateName(name).value, ids, actor, now);
    }
  }

  lemma AddOk(t: Tables, id: Id, list: Id, input: ItemInput, actor: User, now: Time)
    requires TablesOk(t) && ServiceAddItem(t, id, list, input, actor, now).Ok?
    ensures TablesOk(ServiceAddItem(t, id, list, input, actor, now).value)
  {
    CleanedInput(input);
    var i := CleanInput(input).value;
    WriteOk(t, id, NewItem(list, i.name, i.quantity, i.unit, i.note, i.checked, actor, now));
  }

  lemma UpdateOk(t: Tables, id: Id, list: Id, update: ItemUpdate, now: Time)
    requires TablesOk(t) && ServiceUpdateItem(t, id, list, update, now).Ok?
    ensures TablesOk(ServiceUpdateItem(t, id, list, update, now).value)
  {
    CleanedUpdate(update);
    assert Consistent(t.items[id]) && Clean(t.items[id]);
    WriteOk(t, id, Patched(t.items[id], CleanUpdate(update).value, now));
  }

  lemma SetCheckedOk(t: Tables, list: Id, id: Id, checked: bool, actor: User, now: Time)
    requires TablesOk(t)
    ensures TablesOk(Left(t, SetChecked(t, list, id, checked, if checked then Some(now) else None,
                                        if checked then Some(actor) else None, now)))
  {
    if Live(t, list, id) {
      assert Consistent(t.items[id]) && Clean(t.items[id]);
      WriteOk(t, id, t.items[id].(checked := checked, checkedAt := if checked then Some(now) else None,
                                  boughtBy := if checked then Some(actor) else None, updatedAt := now));
    }
  }

  /** Every service call, run on its own, keeps the tables in order. */
  lemma CallKeepsTables(t: Tables, call: Call)
    requires TablesOk(t)
    ensures TablesOk(After(t, call))
  {
    if Store.Perform(t, call).Ok? {
      match call {
        case CreateList(id, name, actor, now) => ValidationCleans(name, "", None);
        case RenameList(id, name, now) => ValidationCleans(name, "", None);
        case DeleteList(id) => DeleteListOk(t, id);
        case CopyList(source, newId, name, actor, ids, now) => CopyCallOk(t, source, newId, name, actor, ids, now);
        case AddItem(id, list, input, actor, now) => AddOk(t, id, list, input, actor, now);
        case UpdateItem(id, list, update, now) => UpdateOk(t, id, list, update, now);
        case DeleteItem(id, list, now) =>
          WriteOk(t, id, t.items[id].(deletedAt := Some(now), updatedAt := now));
        case RestoreItem(id, list, now) =>
          WriteOk(t, id, t.items[id].(deletedAt := None, updatedAt := now));
        case CheckItem(id, list, actor, now) => SetCheckedOk(t, list, id, true, actor, now);
        case UncheckItem(id, list, now) => SetCheckedOk(t, list, id, false, 0, now);
      }
    }
  }

  lemma DeleteListOk(t: Tables, id: Id)
    requires TablesOk(t) && DeleteListRow(t, id).Ok?
    ensures TablesOk(DeleteListRow(t, id).value)
  {
  }

  /** Only the attribution columns of items and lists change in a merge. */
  lemma MergeRewrites(t: Tables, source: Identity.Identity, target: Identity.Identity)
    requires Identity.Merge(t, source, target).Ok?
    ensures var t' := Identity.Merge(t, source, target).value;
            var moved := Identity.RewriteAttribution(t, source.userId, target.userId);
            t'.items == moved.items && t'.lists == moved.lists
  {
  }

  lemma MergeOk(t: Tables, source: Identity.Identity, target: Identity.Identity)
    requires TablesOk(t) && Identity.Merge(t, source, target).Ok?
    ensures TablesOk(Identity.Merge(t, source, target).value)
  {
    RewriteOk(t, source.userId, target.userId);
    MergeRewrites(t, source, target);
  }

  lemma RewriteOk(t: Tables, source: User, target: User)
    requires TablesOk(t)
    ensures TablesOk(Identity.RewriteAttribution(t, source, target))
  {
    var t' := Identity.RewriteAttribution(t, source, target);
    forall id | id in t'.items ensures Consistent(t'.items[id]) && Clean(t'.items[id]) {
      assert Consistent(t.items[id]) && Clean(t.items[id]);
    }
  }

  /**
   Starting from an empty store, under every interleaving of adds, edits, deletes,
   restores, copies, merges and the separate reads and writes of checks and
   unchecks, every item is checked exactly when it has a check time and exactly when
   it has a buyer, and no CHECK constraint or foreign key is ever violated.
   */
  lemma {:induction false} EveryRunKeepsTables(s: Sys, steps: seq<Step>)
    requires TablesOk(s.t)
    ensures TablesOk(Run(s, steps).t)
    decreases steps
  {
    if steps == [] {
    } else {
      match steps[0] {
        case Perform(call) => CallKeepsTables(s.t, call);
        case ReadForCheck(_, _, _, _, _) =>
        case WriteCheck(request, now) =>
          if request in s.pending {
            var p := s.pending[request];
            SetCheckedOk(s.t, p.list, p.item, p.checked, p.actor, now);
          }
        case Merge(source, target) =>
          if Identity.Merge(s.t, source, target).Ok? {
            MergeOk(s.t, source, target);
          }
      }
      EveryRunKeepsTables(Next(s, steps[0]), steps[1..]);
    }
  }

  lemma EmptyStoreIsOk()
    ensures TablesOk(NoTables())
  {
  }

  /** Nothing in between, the read and the write of a check or uncheck are the whole call, and leave nothing pending. */
  lemma ReadAndWriteAreTheCall(s: Sys, request: nat, list: Id, item: Id, checked: bool, actor: User, now: Time)
    requires request !in s.pending
    ensures Next(Next(s, ReadForCheck(request, list, item, checked, actor)), WriteCheck(request, now))
            == s.(t := After(s.t, if checked then CheckItem(item, list, actor, now) else UncheckItem(item, list, now)))
  {
  }

  /**
   A pending write waits for its own step through whatever calls, reads, other writes and
   merges come in between, and a read alone changes no table.
   */
  lemma PendingWritesWait(s: Sys, step: Step, request: nat)
    ensures request in s.pending && step.WriteCheck? && step.request == request ==> request !in Next(s, step).pending
    ensures request in s.pending && !(step.WriteCheck? && step.request == request) ==>
              request in Next(s, step).pending && Next(s, step).pending[request] == s.pending[request]
    ensures request !in s.pending && !(step.ReadForCheck? && step.request == request) ==> request !in Next(s, step).pending
    ensures step.ReadForCheck? ==> Next(s, step).t == s.t
    ensures step.Merge? && Identity.Merge(s.t, step.source, step.target).Ok? ==>
              Next(s, step).t == Identity.Merge(s.t, step.source, step.target).value
  {
  }

  /** Two people about to check an item, the first of them having written. */
  function Overlapping(list: Id, item: Id, first: nat, second: nat, a: User, b: User, now: Time): seq<Step> {
    [ReadForCheck(first, list, item, true, a), ReadForCheck(second, list, item, true, b), WriteCheck(first, now)]
  }

  /**
   Whoever the two are and whatever item they check, when both read before either
   writes, the item is the first one's after the first write and the second one's in
   the end; so the first buyer survives exactly when the two are the same.
   */
  lemma OverlappingChecksReplaceTheBuyer(
    s: Sys, list: Id, item: Id, first: nat, second: nat, a: User, b: User, now: Time, later: Time)
    requires Live(s.t, list, item) && !s.t.items[item].checked
    requires first != second && first !in s.pending && second !in s.pending
    ensures var once := Run(s, Overlapping(list, item, first, second, a, b, now));
            var twice := Next(once, WriteCheck(second, later));
            && Live(once.t, list, item) && once.t.items[item].boughtBy == Some(a)
            && Live(twice.t, list, item) && twice.t.items[item].boughtBy == Some(b)
            && twice.t.items[item].checkedAt == Some(later)
  {
    var steps := Overlapping(list, item, first, second, a, b, now);
    var s1 := Next(s, steps[0]);
    var s2 := Next(s1, steps[1]);
    var s3 := Next(s2, steps[2]);
    assert s2.t == s.t && s2.pending[first] == Pending(list, item, true, a) && s2.pending[second] == Pending(list, item, true, b);
    assert steps[1..] == [steps[1], steps[2]] && steps[1..][1..] == [steps[2]];
    assert Run(s3, []) == s3;
    assert Run(s2, [steps[2]]) == s3;
    assert Run(s1, [steps[1], steps[2]]) == s3;
  }
}
