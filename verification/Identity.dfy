/** Merging one identity into another (adapters/db/identity.go). */
module Identity {

  import opened Results
  import opened Store
  import Maps

  datatype Kind = Local | Oidc | Dev | Unknown

  datatype Identity = Identity(kind: Kind, userId: User, name: string, email: string)

  datatype MergeResult = MergeResult(lists: nat, added: nat, bought: nat)

  // the UUID of the fixed dev user
  const DEV_USER: User := 1

  // ---------------------------------------------------------------- attribution

  function Credit(u: Option<User>, source: User, target: User): Option<User> {
    if u == Some(source) then Some(target) else u
  }

  ghost function CreditLists(lists: map<Id, ListRow>, source: User, target: User): (r: map<Id, ListRow>)
    ensures r.Keys == lists.Keys
    ensures forall id :: id in lists ==> r[id] == lists[id].(createdBy := Credit(lists[id].createdBy, source, target))
  {
    Maps.Transform(lists, (row: ListRow) => row.(createdBy := Credit(row.createdBy, source, target)))
  }

  ghost function CreditAdded(items: map<Id, ItemRow>, source: User, target: User): (r: map<Id, ItemRow>)
    ensures r.Keys == items.Keys
    ensures forall id :: id in items ==> r[id] == items[id].(addedBy := Credit(items[id].addedBy, source, target))
  {
    Maps.Transform(items, (row: ItemRow) => row.(addedBy := Credit(row.addedBy, source, target)))
  }

  ghost function CreditBought(items: map<Id, ItemRow>, source: User, target: User): (r: map<Id, ItemRow>)
    ensures r.Keys == items.Keys
    ensures forall id :: id in items ==> r[id] == items[id].(boughtBy := Credit(items[id].boughtBy, source, target))
  {
    Maps.Transform(items, (row: ItemRow) => row.(boughtBy := Credit(row.boughtBy, source, target)))
  }

  function ListsBy(lists: map<Id, ListRow>, u: User): set<Id> {
    set id | id in lists && lists[id].createdBy == Some(u)
  }

  function AddedBy(items: map<Id, ItemRow>, u: User): set<Id> {
    set id | id in items && items[id].addedBy == Some(u)
  }

  function BoughtBy(items: map<Id, ItemRow>, u: User): set<Id> {
    set id | id in items && items[id].boughtBy == Some(u)
  }

  /** CountAttribution */
  function Counts(t: Tables, u: User): MergeResult {
    MergeResult(|ListsBy(t.lists, u)|, |AddedBy(t.items, u)|, |BoughtBy(t.items, u)|)
  }

  ghost function RewriteAttribution(t: Tables, source: User, target: User): Tables {
    t.(lists := CreditLists(t.lists, source, target),
       items := CreditBought(CreditAdded(t.items, source, target), source, target))
  }

  // ---------------------------------------------------------------- members and users

  ghost function DeleteSource(t: Tables, source: Identity): Tables {
    t.(members := Maps.Filter(t.members, (m: MemberRow) => m.userId != source.userId),
       users := if source.kind.Local? then t.users - {source.userId} else t.users)
  }

  ghost predicate HasMember(members: map<Subject, MemberRow>, u: User) {
    exists s :: s in members && members[s].userId == u
  }

  /**
   INSERT ... ON CONFLICT (subject) DO NOTHING. A row with another subject and the
   same user id violates the unique index on user_id.
   */
  ghost function SeedTarget(t: Tables, target: Identity): Result<Tables> {
    var subject := UuidText(target.userId);
    if !target.kind.Local? || subject in t.members then Ok(t)
    else if HasMember(t.members, target.userId) then Err(Conflict)
    else Ok(t.(members := t.members[subject := MemberRow(target.userId, target.email, target.name)]))
  }

  /** One transaction: a failing statement rolls everything back. */
  ghost function Merge(t: Tables, source: Identity, target: Identity): Result<Tables> {
    SeedTarget(DeleteSource(RewriteAttribution(t, source.userId, target.userId), source), target)
  }

  // ---------------------------------------------------------------- conservation

  datatype Pair = Pair(source: Identity, target: Identity)

  ghost function MergeAll(t: Tables, merges: seq<Pair>): Tables
    decreases merges
  {
    if merges == [] then t
    else MergeAll(Left(t, Merge(t, merges[0].source, merges[0].target)), merges[1..])
  }

  /** A credited user's image under the merges that go through, one after the other. */
  ghost function Image(t: Tables, merges: seq<Pair>, u: Option<User>): Option<User>
    decreases merges
  {
    if merges == [] then u
    else
      var r := Merge(t, merges[0].source, merges[0].target);
      Image(Left(t, r), merges[1..],
            if r.Ok? then Credit(u, merges[0].source.userId, merges[0].target.userId) else u)
  }

  /**
   Over any sequence of merges, every row keeps its place and all its other columns,
   and each of its credited users is the image of the one it started with.
   */
  lemma {:induction false} MergesConserveRows(t: Tables, merges: seq<Pair>)
    ensures var t' := MergeAll(t, merges);
            && t'.lists.Keys == t.lists.Keys && t'.items.Keys == t.items.Keys
            && (forall id :: id in t.lists ==>
                  t'.lists[id] == t.lists[id].(createdBy := Image(t, merges, t.lists[id].createdBy)))
            && (forall id :: id in t.items ==>
                  t'.items[id] == t.items[id].(addedBy := Image(t, merges, t.items[id].addedBy),
                                               boughtBy := Image(t, merges, t.items[id].boughtBy)))
    decreases merges
  {
    if merges == [] {
    } else {
      MergesConserveRows(Left(t, Merge(t, merges[0].source, merges[0].target)), merges[1..]);
    }
  }

  /** A credited user stays a credited user: merging never loses or invents a credit. */
  lemma {:induction false} ImageKeepsCredit(t: Tables, merges: seq<Pair>, u: Option<User>)
    ensures Image(t, merges, u).Some? <==> u.Some?
    decreases merges
  {
    if merges == [] {
    } else {
      var r := Merge(t, merges[0].source, merges[0].target);
      ImageKeepsCredit(Left(t, r), merges[1..],
                       if r.Ok? then Credit(u, merges[0].source.userId, merges[0].target.userId) else u);
    }
  }

  lemma UnionOfDisjoint(r: set<Id>, a: set<Id>, b: set<Id>)
    requires a !! b && r == a + b
    ensures |r| == |a| + |b|
  {
  }

  /** How many rows a user is credited with once the source's rows are the target's. */
  function Moved(u: User, source: User, target: User, own: nat, sources: nat): nat {
    if u == target then own + sources else if u == source then 0 else own
  }

  lemma ListCountsMove(lists: map<Id, ListRow>, s: User, g: User, u: User)
    requires s != g
    ensures |ListsBy(CreditLists(lists, s, g), u)| == Moved(u, s, g, |ListsBy(lists, u)|, |ListsBy(lists, s)|)
  {
    var rows := ListsBy(CreditLists(lists, s, g), u);
    if u == g {
      UnionOfDisjoint(rows, ListsBy(lists, g), ListsBy(lists, s));
    } else {
      assert rows == if u == s then {} else ListsBy(lists, u);
    }
  }

  lemma AddedCountsMove(items: map<Id, ItemRow>, items': map<Id, ItemRow>, s: User, g: User, u: User)
    requires s != g && items'.Keys == items.Keys
    requires forall id :: id in items ==> items'[id].addedBy == Credit(items[id].addedBy, s, g)
    ensures |AddedBy(items', u)| == Moved(u, s, g, |AddedBy(items, u)|, |AddedBy(items, s)|)
  {
    if u == g {
      UnionOfDisjoint(AddedBy(items', u), AddedBy(items, g), AddedBy(items, s));
    } else {
      assert AddedBy(items', u) == if u == s then {} else AddedBy(items, u);
    }
  }

  lemma BoughtCountsMove(items: map<Id, ItemRow>, items': map<Id, ItemRow>, s: User, g: User, u: User)
    requires s != g && items'.Keys == items.Keys
    requires forall id :: id in items ==> items'[id].boughtBy == Credit(items[id].boughtBy, s, g)
    ensures |BoughtBy(items', u)| == Moved(u, s, g, |BoughtBy(items, u)|, |BoughtBy(items, s)|)
  {
    if u == g {
      UnionOfDisjoint(BoughtBy(items', u), BoughtBy(items, g), BoughtBy(items, s));
    } else {
      assert BoughtBy(items', u) == if u == s then {} else BoughtBy(items, u);
    }
  }

  /**
   A merge moves the source's counts onto the target, leaves the source with none
   and everybody else's alone.
   */
  lemma MergeMovesCounts(t: Tables, source: Identity, target: Identity, u: User)
    requires source.userId != target.userId && Merge(t, source, target).Ok?
    ensures var (now, was) := (Counts(Merge(t, source, target).value, u), Counts(t, u));
            var (s, g, sources) := (source.userId, target.userId, Counts(t, source.userId));
            && now.lists == Moved(u, s, g, was.lists, sources.lists)
            && now.added == Moved(u, s, g, was.added, sources.added)
            && now.bought == Moved(u, s, g, was.bought, sources.bought)
  {
    var items' := RewriteAttribution(t, source.userId, target.userId).items;
    ListCountsMove(t.lists, source.userId, target.userId, u);
    AddedCountsMove(t.items, items', source.userId, target.userId, u);
    BoughtCountsMove(t.items, items', source.userId, target.userId, u);
  }

  // ---------------------------------------------------------------- names stay resolvable

  /** A local user's members row, if any, is the one with the user's UUID text as its subject. */
  ghost predicate LocalSubjects(t: Tables) {
    forall u, s :: u in t.users && s in t.members ==> (s == UuidText(u) <==> t.members[s].userId == u)
  }

  /** ResolveUUID's classification of a user id. */
  ghost function KindOf(t: Tables, u: User): Kind {
    if u in t.users then Local
    else if UuidText(DEV_USER) in t.members && t.members[UuidText(DEV_USER)].userId == u then Dev
    else if HasMember(t.members, u) then Oidc
    else Unknown
  }

  /** Whoever has a row is known: a users row makes them local, a members row somebody's login. */
  lemma KnownKinds(t: Tables, u: User)
    ensures KindOf(t, u).Local? <==> u in t.users
    ensures KindOf(t, u).Unknown? <==> u !in t.users && !HasMember(t.members, u)
    ensures KindOf(t, u).Dev? ==> HasMember(t.members, u)
    ensures UniqueUserIds(t.members) && u !in t.users ==>
              (KindOf(t, u).Dev? <==> exists s :: s in t.members && t.members[s].userId == u && s == UuidText(1))
  {
  }

  ghost predicate Credited(t: Tables, u: User) {
    || (exists id :: id in t.lists && t.lists[id].createdBy == Some(u))
    || (exists id :: id in t.items && (t.items[id].addedBy == Some(u) || t.items[id].boughtBy == Some(u)))
  }

  ghost predicate Sound(t: Tables) {
    UniqueUserIds(t.members) && LocalSubjects(t)
  }

  lemma SeedingAddsOnlyTheTarget(t: Tables, target: Identity, u: User)
    requires SeedTarget(t, target).Ok? && u != target.userId
    ensures var t' := SeedTarget(t, target).value;
            HasMember(t'.members, u) == HasMember(t.members, u) && Credited(t', u) == Credited(t, u) && t'.users == t.users
  {
    var t' := SeedTarget(t, target).value;
    assert t'.lists == t.lists && t'.items == t.items;
    if HasMember(t.members, u) && t' != t {
      var s :| s in t.members && t.members[s].userId == u;
      assert s in t'.members;
    }
  }

  lemma NothingLeft(t: Tables, source: User, target: User)
    requires source != target
    ensures !Credited(RewriteAttribution(t, source, target), source)
  {
  }

  lemma SourceIsGone(t: Tables, source: Identity, target: Identity)
    requires source.userId != target.userId && Merge(t, source, target).Ok?
    ensures var t' := Merge(t, source, target).value;
            && !HasMember(t'.members, source.userId) && !Credited(t', source.userId)
            && (source.kind.Local? ==> source.userId !in t'.users)
  {
    var moved := RewriteAttribution(t, source.userId, target.userId);
    NothingLeft(t, source.userId, target.userId);
    var cleaned := DeleteSource(moved, source);
    assert !HasMember(cleaned.members, source.userId);
    assert Credited(cleaned, source.userId) == Credited(moved, source.userId);
    SeedingAddsOnlyTheTarget(cleaned, target, source.userId);
  }

  /** Everybody but the source keeps their members row. */
  lemma OthersKeepMembers(t: Tables, source: Identity, target: Identity, u: User)
    requires u != source.userId && Merge(t, source, target).Ok? && HasMember(t.members, u)
    ensures HasMember(Merge(t, source, target).value.members, u)
  {
    var s :| s in t.members && t.members[s].userId == u;
    assert s in Merge(t, source, target).value.members;
  }

  lemma TargetHasMember(t: Tables, source: Identity, target: Identity)
    requires source.userId != target.userId && Sound(t)
    requires target.kind == KindOf(t, target.userId) && target.kind != Unknown && Merge(t, source, target).Ok?
    ensures HasMember(Merge(t, source, target).value.members, target.userId)
  {
    var members, subject := Merge(t, source, target).value.members, UuidText(target.userId);
    if target.kind.Local? {
      if subject in t.members {
        assert t.members[subject].userId == target.userId;
      }
      assert subject in members && members[subject].userId == target.userId;
    } else {
      assert HasMember(t.members, target.userId);
      OthersKeepMembers(t, source, target, target.userId);
    }
  }

  /**
   Merging onto a known identity always goes through. Afterwards the target has a
   members row and the source has none, every user that could be named before can
   still be named, under the image of the merge, and the assumptions about member
   rows hold again for the next merge.
   */
  lemma MergeKeepsNamesResolvable(t: Tables, source: Identity, target: Identity)
    requires source.userId != target.userId && Sound(t)
    requires target.kind == KindOf(t, target.userId) && target.kind != Unknown
    ensures Merge(t, source, target).Ok?
    ensures var t' := Merge(t, source, target).value;
            && HasMember(t'.members, target.userId) && !HasMember(t'.members, source.userId)
            && !Credited(t', source.userId)
            && (forall u :: HasMember(t.members, u) ==>
                  HasMember(t'.members, Credit(Some(u), source.userId, target.userId).value))
            && Sound(t')
  {
    SourceIsGone(t, source, target);
    TargetHasMember(t, source, target);
    var t' := Merge(t, source, target).value;
    forall u | HasMember(t.members, u)
      ensures HasMember(t'.members, Credit(Some(u), source.userId, target.userId).value)
    {
      if u != source.userId {
        OthersKeepMembers(t, source, target, u);
      }
    }
  }

  /**
   Of the members rows a merge removes the source's, keeps the others as they are, and
   gives a local target without one a row with its own name and email. Of the users it
   removes a local source.
   */
  lemma MergedMembers(t: Tables, source: Identity, target: Identity)
    requires Merge(t, source, target).Ok?
    ensures var t', subject := Merge(t, source, target).value, UuidText(target.userId);
            && (forall s :: s in t.members && t.members[s].userId != source.userId ==>
                  s in t'.members && t'.members[s] == t.members[s])
            && (forall s :: s in t'.members ==>
                  (s in t.members && t.members[s].userId != source.userId) || (target.kind.Local? && s == subject))
            && (target.kind.Local? && (subject !in t.members || t.members[subject].userId == source.userId) ==>
                  && subject in t'.members && t'.members[subject].userId == target.userId
                  && t'.members[subject].name == target.name && t'.members[subject].email == target.email)
            && t'.users == if source.kind.Local? then t.users - {source.userId} else t.users
  {
  }

  lemma ListsMoved(lists: map<Id, ListRow>, source: User, target: User)
    requires source != target
    ensures (set id | id in lists && CreditLists(lists, source, target)[id].createdBy != lists[id].createdBy) == ListsBy(lists, source)
  {
  }

  lemma ItemsMoved(items: map<Id, ItemRow>, items': map<Id, ItemRow>, source: User, target: User)
    requires source != target && items'.Keys == items.Keys
    requires forall id :: id in items ==>
               && items'[id].addedBy == Credit(items[id].addedBy, source, target)
               && items'[id].boughtBy == Credit(items[id].boughtBy, source, target)
    ensures (set id | id in items && items'[id].addedBy != items[id].addedBy) == AddedBy(items, source)
    ensures (set id | id in items && items'[id].boughtBy != items[id].boughtBy) == BoughtBy(items, source)
  {
  }

  /** The counts reported are the numbers of rows whose credit the merge has changed. */
  lemma CountsAreTheRowsMoved(t: Tables, source: Identity, target: Identity)
    requires source.userId != target.userId && Merge(t, source, target).Ok?
    ensures var t', counts := Merge(t, source, target).value, Counts(t, source.userId);
            && t'.lists.Keys == t.lists.Keys && t'.items.Keys == t.items.Keys
            && counts.lists == |set id | id in t.lists && t'.lists[id].createdBy != t.lists[id].createdBy|
            && counts.added == |set id | id in t.items && t'.items[id].addedBy != t.items[id].addedBy|
            && counts.bought == |set id | id in t.items && t'.items[id].boughtBy != t.items[id].boughtBy|
  {
    var t' := Merge(t, source, target).value;
    assert t'.lists == CreditLists(t.lists, source.userId, target.userId);
    ListsMoved(t.lists, source.userId, target.userId);
    assert t'.items == RewriteAttribution(t, source.userId, target.userId).items;
    ItemsMoved(t.items, t'.items, source.userId, target.userId);
  }

  /** Every merge of the sequence is onto another identity that is known when its turn comes. */
  ghost predicate WellTargeted(t: Tables, merges: seq<Pair>)
    decreases merges
  {
    if merges == [] then true
    else
      var (source, target) := (merges[0].source, merges[0].target);
      && source.userId != target.userId
      && target.kind == KindOf(t, target.userId) && target.kind != Unknown
      && WellTargeted(Left(t, Merge(t, source, target)), merges[1..])
  }

  /** Over whole chains of merges, every credit that could be named still can. */
  lemma {:induction false} ChainKeepsNamesResolvable(t: Tables, merges: seq<Pair>, u: User)
    requires Sound(t) && WellTargeted(t, merges) && HasMember(t.members, u)
    ensures Image(t, merges, Some(u)).Some?
    ensures HasMember(MergeAll(t, merges).members, Image(t, merges, Some(u)).value)
    ensures Sound(MergeAll(t, merges))
    decreases merges
  {
    if merges == [] {
    } else {
      var (source, target) := (merges[0].source, merges[0].target);
      MergeKeepsNamesResolvable(t, source, target);
      ChainKeepsNamesResolvable(Merge(t, source, target).value, merges[1..],
                                Credit(Some(u), source.userId, target.userId).value);
    }
  }

  /** One members row per user id still, whatever is merged into whatever. */
  lemma MergeKeepsUserIdsUnique(t: Tables, source: Identity, target: Identity)
    requires UniqueUserIds(t.members) && Merge(t, source, target).Ok?
    ensures UniqueUserIds(Merge(t, source, target).value.members)
  {
  }
}
