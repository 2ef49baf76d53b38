# A verified model of the shopping-list service

This project models the stateful core of a self-hosted shopping-list application
and proves what that core is for. Four families of code are covered. In each, a
stateful, optimised or distributed form has to agree with a simple one.

* **Login throttling** (`auth/ratelimit.go`, `auth/password.go`). A bounded map of
  lazily refilled token buckets, swept of full ones, against one ideal bucket per key.
  Tokens are exact: a bucket's credit is its tokens times the refill interval, in
  nanoseconds. A call reads the clock under the mutex, so it is one atomic step, and a
  run is any sequence of calls with a non-decreasing clock. A login is three steps
  (address throttle, username throttle, end of the comparison), and the logins of any
  number of clients interleave freely.
* **The offline client against the store** (`frontend/src/queries.ts`,
  `frontend/src/ListDetail.tsx`, `lists/`, `adapters/db/items.go`,
  `adapters/db/lists.go`). The client folds changes into a create that is still queued,
  or cancels it, and keeps optimistic counts. The server keeps items with soft delete,
  check state, attribution, counts and list copies. Tables are maps, an SQL statement is
  one atomic step, and a copy or a merge is one transaction.
* **Identity merge** (`adapters/db/identity.go`). Attribution moved from one user to
  another, over chains of merges.
* **Event broker and trend history** (`events/broker.go`, `hack/dashboard/`). A fan-out
  with bounded buffers as a state machine whose sends, closes and receives interleave;
  and a table that is printed into an issue body and parsed out of it on the next
  rebuild.

Code that changes state step by step is a class or a method with loops
(`RateLimit.KeyedLimiter`, `Login.PasswordAuthenticator`, `Broker.EventBroker`,
`Repositories`, `QueryClients.QueryClient`, the loops of `Trend`), each proved equal to
a specification function of the old state. The theorems about runs are about those
functions.

| file | contents |
|---|---|
| `RateLimit.dfy`, `Login.dfy` | the limiter, its ideal, the login path |
| `Broker.dfy` | the broker |
| `ListRules.dfy`, `Text.dfy` | validation and normalisation |
| `Store.dfy`, `Repositories.dfy` | tables, statements and service as functions, and as classes |
| `ItemLife.dfy` | what the item statements undo, compose to and leave alone |
| `CheckState.dfy`, `BuyerHistory.dfy`, `Interleaving.dfy` | what every run of the service keeps, in one go and interleaved |
| `ListLife.dfy`, `CopyOrder.dfy`, `ListQuery.dfy`, `ItemQuery.dfy`, `Ordering.dfy` | what list statements do, display order, list copies, the two queries with joins, sorting |
| `Fold.dfy`, `ClientCache.dfy`, `CancelledCreate.dfy`, `QueuedCreate.dfy`, `UndoRemoval.dfy`, `Sync.dfy`, `LateFolds.dfy`, `QueryClient.dfy` | the offline client, and what sending its outbox makes of the server |
| `Identity.dfy` | merges |
| `Regex.dfy`, `Substrings.dfy`, `Trend.dfy` | the trend history |
| `Maps.dfy`, `Results.dfy` | small helpers |

## Where the code does not keep a promise

Each of these is a lemma naming the inputs that fail, next to the condition under
which the promise holds.

* The `Retry-After` of a bucket refusal is kept exactly when the map still has room for
  the key (`RateLimit.RetryAfterIsExact`, for every burst). That is certain until the
  key's bucket is full again (`RateLimit.RetryAfterIsKept`), and not an instant longer:
  from an empty limiter, whatever its burst, interval and size, newcomers can then take
  every slot (`RateLimit.RetryWindowIsTight`). With a burst of one the window is empty
  and the call at the promised instant itself can be refused
  (`RateLimit.RetryFailsForBurstOfOne`). The program's own limiters have bursts of 10
  and 5. A key turned away because the map is full is told to wait an interval, which
  promises nothing: its next call is granted exactly when it is not turned away again
  (`RateLimit.TurnedAwayKeepsItsBurst`).
* An edit the server refuses, an empty name for instance, leaves an item it already has
  alone. Folded into a queued create it takes the whole create down with it
  (`Fold.RefusedEditTakesTheCreate`); the folded create is accepted exactly when the
  last value given for each field is (`Fold.FoldedCreateIsAccepted`).
* A change folded into a create that is still queued goes before whatever was queued
  after that create, so an earlier change can overtake it when the outbox is sent in
  order. After every session the items on the server's list are still exactly the ones
  shown. Each is the one shown with the last values laid over it that the mutations
  queued after its create give. So it is as it is shown exactly when those values, as the
  server stores them, are the ones shown (`Sync.SentOutboxIsTheScreen`). As long as this
  holds, an operation breaks it exactly when it folds an edit past one that gives the
  same field another value, or a check or uncheck past any other (`LateFolds.DoStands`).
  Such sessions: going offline between two edits of an item whose create is under way
  (`LateFolds.LateFoldIsOvertaken`), and between two toggles of it, after which the
  server always has the item checked when the screen shows it open and the other way
  round (`LateFolds.LateToggleIsOvertaken`). A session spent offline from start to end
  overtakes nothing (`LateFolds.OfflineSessionSyncs`).
* A check is a read followed by a write. When two people both read before either
  writes, the second one's write replaces the first one as the buyer, whoever they are
  (`CheckState.OverlappingChecksReplaceTheBuyer`). A write does what the whole call
  would have done exactly when it does not find its item already in the state it sets,
  or happens to write the row that is there (`Interleaving.WriteIsAtomic`). Over every
  interleaving of service calls and merges the buyer is the last to write a check since
  the item was last unchecked or created, or whoever that person has been merged into
  (`Interleaving.BuyerIsTheLastToWrite`), so the first to do so still has it exactly when
  the last is the same person by then (`Interleaving.FirstKeepsTheItem`). As long
  as no write finds its item in the state it sets, an interleaved run comes to the
  tables of whole calls run one at a time (`Interleaving.Linearizes`). The check-state
  invariant holds under every interleaving.
* A toggle or a removal acts on the row as it was rendered. It leaves the cached counts
  right exactly when the cached row is still there and in the state shown
  (`ClientCache.ToggleCountsExactly`, `ClientCache.RemovalCountsExactly`).
* Undoing the removal of an item that was never synced adds it again without its unit,
  so it is whole exactly when that unit is the default
  (`UndoRemoval.UndoForgetsTheUnit`).
* A rebuilt dashboard body gives its rows back exactly when the shortened commit is
  hexadecimal, as long as the text before the trend section holds no start marker
  (`Trend.RebuildRoundTrip`). The row of a commit of other non-blank characters is lost
  at the next rebuild, and from a full table it has pushed the oldest row off
  (`Trend.BadCommitIsLost`, `Trend.HistoryWithBadCommits`). The comment on `trendDate`
  guards the date against this; nothing guards the commit.

## Model

| member | source | states |
|---|---|---|
| RateLimit.PruningIsInvisible | auth/ratelimit.go:67-135 | over every run with a non-decreasing clock, the bounded pruning limiter gives the decisions and waits of the unbounded one that never prunes; calls refused because the map is full are no step of the ideal one |
| RateLimit.NextAgrees | auth/ratelimit.go:67-104 | one call or reset leaves both limiters with the same level for every key, and an admitted call gets the same answer from both |
| RateLimit.NewLimiterAgrees | auth/ratelimit.go:53-63 | a new limiter agrees with a new ideal one, so the theorem covers every run from the start |
| RateLimit.PruneKeepsLevels | auth/ratelimit.go:121-135 | sweeping refilled buckets changes what no key could spend |
| RateLimit.AllowLevels | auth/ratelimit.go:67-96 | an admitted call is granted exactly when the key holds a token, spends one, and touches no other key; a refusal reports the exact time to the next token |
| RateLimit.RateBound | auth/ratelimit.go:67-116 | in any stretch of a run with r resets of a key, at most (r+1) bursts plus one call per interval gone by are granted to it, whatever other keys and pruning do |
| RateLimit.RunKeepsInv | auth/ratelimit.go:106-116 | no bucket ever leaves the range from none to a full burst |
| RateLimit.RunKeepsBound | auth/ratelimit.go:71-80 | the map never outgrows maxKeys |
| RateLimit.RetryAfterIsExact | auth/ratelimit.go:67-96 | after a bucket refusal with wait w, for every burst of at least one and without a reset, every call on the key before now+w is refused and told the time left, and its first call at any time from now+w on is granted exactly when the map has room for it, whatever other keys do |
| RateLimit.RetryAfterIsKept | auth/ratelimit.go:67-96 | until the bucket would be full again, burst-1 intervals after the deadline, that call is granted without condition |
| RateLimit.RetryWindowIsTight | auth/ratelimit.go:71-90 | for every burst, interval and map size, a run from an empty limiter ends with the key turned away at the very end of that window |
| RateLimit.RetryAfterHeaderSuffices | auth/password.go:170-175 | waiting the rounded-up seconds of the header is enough when the interval is at least a second and the key is otherwise unused, and the header asks for less than a second too much |
| RateLimit.RetryFailsForBurstOfOne | auth/ratelimit.go:71-90 | with a burst of one, for every interval and map size, a run from an empty limiter ends with the call at the promised instant refused |
| RateLimit.TurnedAwayKeepsItsBurst | auth/ratelimit.go:71-80 | a key refused because the map is full is told to wait an interval, and its next call, whenever it comes, is granted exactly when it is not turned away again |
| RateLimit.TurnedAwayExactly | auth/ratelimit.go:71-80 | a key is turned away exactly when it has a full burst and as many others as the map holds have not |
| RateLimit.SweepsExactly | auth/ratelimit.go:121-135 | a minute after the last sweep, and whenever the map is full, a call keeps of the other keys those short of a full burst, and otherwise all of them |
| RateLimit.KeyedLimiter.constructor | auth/ratelimit.go:53-63 | a new limiter is empty |
| RateLimit.KeyedLimiter.AllowKey | auth/ratelimit.go:67-96 | the in-place steps give the specification's decision and next state |
| RateLimit.KeyedLimiter.ResetKey | auth/ratelimit.go:99-104 | forgets the key's bucket and nothing else |
| RateLimit.KeyedLimiter.PruneLocked | auth/ratelimit.go:121-135 | the loop that deletes from the map while going through it leaves exactly the refilled buckets that are short of full, whatever order it takes them in |
| Login.AddressBound | auth/password.go:116-139 | over every interleaving of logins, posts from one address reach the comparison at most 10 times plus once per 6 s, however many succeed; requests already past the address throttle at the start come on top |
| Login.UsernameBound | auth/password.go:131-159 | posts for one username reach the comparison at most 5(1+successes) times plus once per 12 s, from whatever addresses |
| Login.ComparedAreAdmitted | auth/password.go:116-139 | every comparison uses up one request that its address throttle admitted |
| Login.NextKeepsSysInv | auth/password.go:108-166 | every step of every login keeps both limiters' buckets in range |
| Login.PostIsCompared | auth/password.go:108-152 | a post reaches the comparison exactly when its address and its username each hold a token and are not turned away |
| Login.ArrivalSpends | auth/password.go:116-122 | an arrival costs its own address one token, if it has one, and nobody else anything |
| Login.SubmissionSpends | auth/password.go:124-146 | a decoded body costs its own username one token, if it has one, and nobody else anything |
| Login.SuccessForgives | auth/password.go:148-166 | a success gives its username the whole burst of 5 back and leaves every other username and every address as they are; a failure gives nothing back |
| Login.NewcomersHaveABurst | auth/password.go:80-93 | a new authenticator has 10 tokens for every address and 5 for every username |
| Login.PasswordAuthenticator.constructor | auth/password.go:80-93 | two separate limiters, with the address and the username settings |
| Login.PasswordAuthenticator.Login | auth/password.go:108-166 | one request takes exactly the machine's three steps; which response is given when; nothing is compared unless both throttles pass, and only a full success resets the username bucket |
| Broker.CloseSafety | events/broker.go:44-105 | in every reachable state of every interleaving nothing has panicked (no double close, no send after close), and a channel is open exactly while it is registered |
| Broker.Delivery | events/broker.go:94-105 | what a subscriber received, followed by what is buffered, is an in-order subsequence of what was published while it was registered, and is all of it exactly when no send found its buffer full |
| Broker.ClosedForever | events/broker.go:44-88 | once Close has begun the broker stays closed, no subscriber is ever added, and when it ends there are none |
| Broker.NextKeeps | events/broker.go:44-105 | every single step keeps the invariant behind these |
| Broker.SendsPublish | events/broker.go:94-105 | sending to the subscribers one by one, in any order, adds up to the whole Publish |
| Broker.ClosesClose | events/broker.go:78-88 | closing the subscribers one by one, in any order, adds up to the whole Close |
| Broker.SubscribeAndUnsubscribe | events/broker.go:44-71 | the machine's subscribe and unsubscribe steps are the ones the class's methods take |
| Broker.SubscriberIsRegistered | events/broker.go:44-57 | a subscriber gets a new empty channel, open and registered exactly unless the broker is closed; everybody else's subscription stays |
| Broker.UnsubscriberIsDropped | events/broker.go:59-71 | an unsubscribed channel is closed and keeps what it holds; the others stay |
| Broker.PublishReaches | events/broker.go:94-105 | a whole Publish, in any order, puts the event last in every registered channel that has room, drops it at the full ones, and leaves the rest |
| Broker.NewSubscriberIsReached | events/broker.go:44-105 | the first event published after a subscription is the one in the new channel |
| Broker.EventBroker.constructor | events/broker.go:29-35 | a new broker has no subscribers |
| Broker.EventBroker.SubscribeChan | events/broker.go:44-71 | registers a fresh channel, or hands out a closed one after Close |
| Broker.EventBroker.Unsubscribe | events/broker.go:59-71 | closes and drops a registered channel, and does nothing the second time |
| Broker.EventBroker.Close | events/broker.go:78-88 | closes every registered channel once and leaves none registered |
| Broker.EventBroker.Publish | events/broker.go:94-105 | offers the event to every registered channel and to no other, without blocking |
| Broker.EventBroker.TrySend | events/broker.go:98-104 | a send to a full buffer drops the event |
| Broker.EventBroker.Count | events/broker.go:108-113 | the number of registered channels |
| ListRules.ValidationCleans | lists/lists.go:212-304 | an accepted name, unit or note is trimmed, non-empty and within its limit, and a value that already is so is accepted unchanged |
| ListRules.RefusedValues | lists/lists.go:203-304 | exactly which names, quantities, units and notes are refused, with the field and the message, and what the others become |
| ListRules.UnitsAreTheSchemas | openapi.yaml:410-430 | the accepted units are the ones the request schema enumerates |
| ListRules.CopyNameIsValid | lists/lists.go:227-246 | the name made for a copy of a validly named list is itself valid |
| Text.TrimSpaceTrims | lists/lists.go:212-223 | trimming takes off outer white space and nothing else |
| Text.WhiteSpaceByCodePoint | lists/lists.go:212-214 | the characters trimmed are the ones with the Unicode White_Space property |
| CheckState.EveryRunKeepsTables | lists/service.go:256-288 | with the read and write of checks as separate steps, mixed freely with adds, edits, deletes, restores, copies and merges, every item is checked exactly when it has a check time and exactly when it has a buyer, every stored value is valid and every item is on a list |
| CheckState.CallKeepsTables | lists/service.go:29-288 | every service call keeps the same |
| CheckState.MergeOk | adapters/db/identity.go:278-301 | merging identities keeps the same |
| CheckState.CopyOk | adapters/db/lists.go:213-220 | copying a list keeps the same |
| CheckState.EmptyStoreIsOk | lists/service.go:23-25 | it holds of an empty store |
| CheckState.OverlappingChecksReplaceTheBuyer | lists/service.go:256-288 | for every open item, any two people and any times, two checks that both read before either writes make the item the first one's and then the second one's |
| CheckState.ReadAndWriteAreTheCall | lists/service.go:256-288 | with nothing in between, the read and the write are the whole check or uncheck |
| CheckState.PendingWritesWait | lists/service.go:256-288 | a write that is still to come waits through calls, other writes and merges, and a read changes nothing |
| BuyerHistory.BuyerIsTheFirstToCheck | lists/service.go:238-288 | with whole calls run one at a time, an item is checked exactly when a first check since its last uncheck or creation stands, and its buyer and check time are that check's, through any re-checks, edits, deletes and restores; Interleaving.BuyerIsTheFirstToWrite carries this over to separate reads and writes |
| Interleaving.WriteIsAtomic | lists/service.go:263-282 | a write leaves what the whole check or uncheck would at that instant exactly when it does not find its item already in the state it sets, or writes the very row that is there; on such an item the whole call would have written nothing |
| Interleaving.Linearizes | lists/service.go:256-288 | an interleaved run without merges in which no write is of that kind comes to the tables of the whole calls, each at the instant of its write |
| Interleaving.BuyerIsTheFirstToWrite | lists/service.go:238-288 | the buyer history of such interleaved runs |
| Interleaving.BuyerIsTheLastToWrite | lists/service.go:256-288 | over every interleaved run, merges included, an item is checked exactly when a check has been written since its last uncheck or creation; its check time is that of the last such write, and its buyer the writer's image under the merges since |
| Interleaving.NobodyMerged | adapters/db/identity.go:278-301 | in a run without merges that image is the writer |
| Interleaving.FirstKeepsTheItem | lists/service.go:249-288 | the first to check an item still has it at the end exactly when the last to write a check is, after the merges since, the same person, and every write in between found the item checked |
| Interleaving.StaleCheckReplacesTheBuyer | lists/service.go:256-288 | a check written onto an item checked by then keeps its buyer exactly when that is the same person, and its time exactly when it is the same instant; nothing else but the update time changes |
| Interleaving.StaleUncheckIsHarmless | lists/service.go:256-288 | an uncheck written onto an item open by then changes nothing but the update time |
| BuyerHistory.OneCall | lists/service.go:238-288 | what any single call does to an item's buyer |
| CopyOrder.CopyPreservesDisplayOrder | adapters/db/lists.go:213-220 | the copy's items in display order match the source's live items in display order field for field, unchecked, without buyer and added by the copier, whatever ids they get |
| CopyOrder.CopyTouchesNothingElse | adapters/db/lists.go:177-231 | the source and every other list keep their rows and their display order |
| ListLife.AddedIsShownLast | adapters/db/items.go:38-114 | an added item is the last one its list shows exactly when none of the list's live items was created later, ties by id; other lists show what they did |
| ListLife.PlacesAreKept | adapters/db/items.go:135-272 | edits and checks move nothing, and a deleted item is restored to its place |
| ListLife.CreatedListIsThere | lists/service.go:29-41 | a list is created under its trimmed name and by its creator, exactly when the name is valid; deleting it again undoes that |
| ListLife.RenamedListIsThere | lists/service.go:71-86 | a rename changes one list's name and update time, exactly when the list is there and the name valid |
| ListLife.DeletedListIsGone | adapters/db/lists.go:144-160 | a delete takes the list and its own items, and leaves every other row and what other lists show |
| ItemLife.AddedIsRead | lists/service.go:129-165 | an added item is read back with the name and note trimmed, the defaults filled in and the credit right; it joins its list and nothing else changes |
| ItemLife.AcceptedAdds | lists/service.go:129-165 | an add is accepted exactly when every field is valid, the list is there and the id is new; otherwise the first invalid field is named, or the missing list reported |
| ItemLife.UpdatedIsRead | lists/service.go:170-210 | an updated item is read back with what was given, cleaned, and with the rest as it was |
| ItemLife.RestoredIsLive | adapters/db/items.go:222-242 | a restore finds any row of the list with the id and makes it live, changing nothing but the mark and the update time |
| ItemLife.RestoreUndoesDelete | adapters/db/items.go:196-242 | a delete takes the item off its list and cannot be repeated; a restore brings everything back but the update time |
| ItemLife.UncheckUndoesCheck | lists/service.go:256-288 | a re-check by anyone writes nothing, and an uncheck undoes the check, its time and its buyer |
| ItemLife.UpdatesCompose | adapters/db/items.go:135-191 | two updates are one with both their fields; an update touches only its row and moves it nowhere |
| ItemLife.AcceptedUpdates | lists/service.go:170-210 | an update is accepted exactly when the item is live and each field it gives is valid; a refused one leaves no trace |
| ItemLife.RefusedUpdates | lists/service.go:170-210 | of a refused update the first invalid field is named, before the item is looked for |
| ItemLife.MissingIsNotFound | lists/service.go:215-288 | an item that is missing, deleted or on another list is not found by reads, checks and deletes, and nothing changes |
| Ordering.SortOrders | adapters/db/items.go:38-40 | sorting by created_at and id yields an ordered sequence of exactly the same ids |
| Ordering.OrderIsUnique | adapters/db/items.go:38-40 | that order is the only one, so a query that sorts has one answer |
| ListQuery.ListQueryMeaning | adapters/db/lists.go:36-54 | however the tables are scanned, the left joins and the grouping return every list exactly once, newest first, with counts equal to its live open and live checked items and its creator's name, empty and fully deleted lists included |
| ListQuery.GroupsDescribeLists | adapters/db/lists.go:36-54 | grouping the joined rows yields one right summary per list |
| ListQuery.SumCounts | adapters/db/lists.go:47-54 | the sums over a list's joined rows count its matching items once each |
| ListQuery.AtMostOneMember | database/migrations/000007_attribution.up.sql:21 | the unique index is what keeps the member join from duplicating rows |
| Repositories.ListsRepository.Item | adapters/db/items.go:117-131 | the first joined row of a live item of the list, with its adder and buyer by name, or its absence |
| Repositories.ListsRepository.AddItem | adapters/db/items.go:70-114 | inserts exactly the new row, checked with time and buyer or with neither, and reads it back; a missing list is reported and changes nothing |
| Repositories.ListsRepository.UpdateItem | adapters/db/items.go:135-191 | the columns collected one by one make up the patched row; absent fields are left alone |
| Repositories.ListsRepository.DeleteItem | adapters/db/items.go:196-216 | marks the live row deleted and keeps its check state |
| Repositories.ListsRepository.RestoreItem | adapters/db/items.go:222-242 | clears the deletion mark, of a live row too |
| Repositories.ListsRepository.SetItemChecked | adapters/db/items.go:247-272 | writes check state, time and buyer together |
| Repositories.ListsRepository.ListItems | adapters/db/items.go:38-63 | however the tables are scanned, the joined rows of the live items in display order |
| ItemQuery.ItemsAreReadOnce | adapters/db/items.go:30-36 | given unique member user ids, the two left joins return every item once, in order, with its own columns and the current names of its adder and buyer, without a name for an id that has no members row |
| ItemQuery.ItemIsRead | adapters/db/items.go:117-131 | the same for reading one item |
| ItemQuery.MergedNamesAreRead | adapters/db/identity.go:327-342 | after a merge onto a local user without a members row, what the source had added or bought is read with that user's name |
| Repositories.ListsRepository.DeleteList | adapters/db/lists.go:144-160 | removes the list and its items, and nothing else |
| Repositories.ListsRepository.CopyList | adapters/db/lists.go:177-231 | the copy transaction in full: the new list row and the numbered copies, or nothing |
| Repositories.Service.AddItem | lists/service.go:129-165 | validates in order, then inserts; the first failing check is reported and the tables stay as they were |
| Repositories.Service.UpdateItem | lists/service.go:170-210 | validates the given fields in order, then patches |
| Repositories.Service.CheckItem | lists/service.go:238-240 | reads, and writes only when the state changes |
| Repositories.Service.UncheckItem | lists/service.go:244-246 | reads, and writes only when the state changes |
| Repositories.Service.SetCheckedTo | lists/service.go:256-288 | the read-test-write both go through |
| Fold.FoldEquivalence | frontend/src/queries.ts:289-299 | for every valid add and every sequence of individually valid edits, checks and unchecks folded into it, the one resulting add is valid and stores the same item as adding the original and applying each change through the service as the same user; nothing else is touched either way |
| Fold.MergeMatchesServer | frontend/src/queries.ts:694-757 | one folded change matches one service call |
| Fold.MergedPayload | frontend/src/queries.ts:289-299 | a folded change stands in the payload over what was there, and what it does not give stays |
| Fold.EditedPayload | ports/rest/v1/handlers_items.go:16-98 | cleaning a merged payload is overlaying the cleaned edit on the cleaned payload |
| Fold.FoldAcceptsExactly | openapi.yaml:696-756 | a folded edit is accepted with its create, by the request schema and by the service, exactly when it would be accepted on its own |
| Fold.AcceptedExactly | openapi.yaml:696-756 | behind the request schema the service refuses nothing but a name of white space |
| Fold.SchemaBounds | openapi.yaml:696-756 | the request schemas let through names of 1 to 200 runes, positive 32-bit quantities, the enumerated units and notes of up to 500 runes |
| Fold.FoldedCreateIsAccepted | frontend/src/queries.ts:289-299 | whatever is folded into an acceptable create, it is accepted exactly when the last value given for each field is |
| Fold.RefusedEditTakesTheCreate | frontend/src/queries.ts:694-722 | an edit the server refuses leaves a stored item alone and, folded, keeps the whole create from being stored; no other edit does |
| ClientCache.CachedCountsAgree | frontend/src/queries.ts:227-250 | through every sequence of the list screen's operations between server responses, the cached counts are the numbers of open and checked cached rows, and the overview row carries the same two |
| ClientCache.DoKeeps | frontend/src/ListDetail.tsx:258-298 | each single operation keeps this |
| ClientCache.AddIsShown | frontend/src/queries.ts:337-374 | an added row comes last, with what was entered and the defaults for the rest, as the user's own |
| ClientCache.ToggleIsShown | frontend/src/queries.ts:227-250 | a toggle turns one row's state round with its time and buyer, in its place |
| ClientCache.EditIsShown | frontend/src/queries.ts:694-722 | an edit gives one row what it gives and leaves the rest |
| ClientCache.RemovalIsShown | frontend/src/ListDetail.tsx:266-281 | a removed row is gone and offered for undoing |
| ClientCache.OtherListsStay | frontend/src/queries.ts:93-97 | nothing done on one list's screen changes what the overview says of another |
| ClientCache.CreatesAreQueued | frontend/src/queries.ts:260-277 | a change is folded into a create exactly while that has not been sent: offline or paused, and not while an unpaused one is under way online |
| ClientCache.ToggleCountsExactly | frontend/src/queries.ts:227-250 | a toggle leaves the counts right exactly when the cached row is there and in the other state, however old the rendered row is |
| ClientCache.RemovalCountsExactly | frontend/src/queries.ts:809-831 | a removal leaves the counts right exactly when the cached row is there and in the state shown |
| UndoRemoval.UndoRestoresSyncedRow | frontend/src/ListDetail.tsx:266-296 | removing a synced row and undoing that gives the row back as the last one, with the counts, the overview and the undo offers as they were |
| UndoRemoval.UndoForgetsTheUnit | frontend/src/ListDetail.tsx:285-292 | for an unsynced row it gives back the counts and the overview, and all that the user had entered exactly when the unit was the default one |
| QueuedCreate.SentCreateTellsAll | frontend/src/queries.ts:289-299 | through every session in which a create stays queued whenever its item is changed, it carries the original payload with every change folded in, and when sent stores what the server would have made of the original and each change in turn |
| QueuedCreate.SessionFolds | frontend/src/queries.ts:269-299 | the payload in the outbox is the fold of the changes made, whatever is done to other items |
| Sync.SentOutboxIsTheScreen | frontend/src/queries.ts:265-786 | through every session that starts from the loaded list and enters what the server accepts, once the outbox is sent in order, each temporary id standing for the created one: the items on the list are exactly the ones shown; each is the one shown with the last values laid over it that were queued after its create, so as shown, trimming and moments aside, exactly when those are the ones shown; other lists' items stay |
| Sync.SessionSyncs | frontend/src/queries.ts:337-856 | every operation keeps the screen and the outbox in step: what is queued for an item makes it exactly when it is shown, the screen agrees with its payload wherever nothing queued later speaks, and removed rows that can be restored are what they were |
| Sync.Replayed | frontend/src/queries.ts:308-316 | what is queued for a new item, sent in order, makes the item of its create's payload with the last values given after the create, or none, exactly when it was never created or has been deleted since |
| Sync.FoldOnItem | frontend/src/queries.ts:288-299 | a fold changes the payload of the item's one create, whatever else is queued for the item, and nothing of any other item's |
| LateFolds.DoStands | frontend/src/queries.ts:694-758 | while the server is to have every item as shown, an operation keeps it so exactly when it folds no change past a queued one that gives the same field another value |
| LateFolds.NothingOvertakenSyncs | frontend/src/queries.ts:288-299 | so after a session without such a fold the server has the items shown, as shown |
| LateFolds.OfflineSessionSyncs | frontend/src/queries.ts:269-299 | a session spent offline from start to end has no such fold |
| LateFolds.LateFoldIsOvertaken | frontend/src/queries.ts:694-722 | an edit queued while the create was under way overtakes a later one folded into the create; the server then has the item shown exactly when the two give no field different values |
| LateFolds.LateToggleIsOvertaken | frontend/src/queries.ts:724-758 | so does a check or uncheck, whatever the payload: the server then has the item checked exactly when it is shown open |
| Sync.SentPlays | frontend/src/queries.ts:308-316 | sending the outbox does to each item what the mutations about it do to its row, with its temporary id mapped, and nothing to any other |
| CancelledCreate.CancelledCreateLeavesNoTrace | frontend/src/queries.ts:767-786 | adding an item, changing it any number of times and removing it while its create stays queued ends in the rows, counts, overview and outbox of the session without it, whatever is done to other items in between; only the undo offer remains |
| CancelledCreate.EraseCommutes | frontend/src/queries.ts:269-299 | any operation on something else does the same with and without the pending item |
| CancelledCreate.ChangeIsErased | frontend/src/queries.ts:694-757 | changing an item whose create is queued changes nothing outside it |
| CancelledCreate.RemoveErases | frontend/src/queries.ts:809-831 | removing it takes out its row, its share of the counts and its create |
| CancelledCreate.AddIsErased | frontend/src/queries.ts:337-374 | adding it is undone by erasing it |
| QueryClients.QueryClient.PatchListSummary | frontend/src/queries.ts:93-97 | sets the list's overview row and no other |
| QueryClients.QueryClient.FindPausedCreate | frontend/src/queries.ts:269-277 | finds the first queued create for the id, exactly when there is one |
| QueryClients.QueryClient.UpdatePausedCreatePayload | frontend/src/queries.ts:289-299 | overwrites the payload of that create in place, and reports whether there was one |
| QueryClients.QueryClient.ToggleChecked | frontend/src/queries.ts:227-250 | rows, counts and overview of a toggle |
| QueryClients.QueryClient.AddItem | frontend/src/queries.ts:337-374 | the optimistic row, its counts and the queued create |
| QueryClients.QueryClient.UpdateItem | frontend/src/queries.ts:694-722 | folds, or patches and queues |
| QueryClients.QueryClient.SetChecked | frontend/src/queries.ts:724-758 | folds, or toggles and queues |
| QueryClients.QueryClient.DeleteItem | frontend/src/queries.ts:767-786 | cancels the queued create, or queues a delete |
| QueryClients.QueryClient.RemoveItemLocally | frontend/src/queries.ts:809-831 | takes the row out of the cache and of the counts |
| QueryClients.QueryClient.RestoreItemLocally | frontend/src/queries.ts:834-856 | puts the row back at the end and counts it |
| QueryClients.QueryClient.HandleToggle | frontend/src/ListDetail.tsx:258-264 | sets the state opposite to the one rendered; on a row rendered from the current cache it is the operation of the run theorems |
| QueryClients.QueryClient.HandleRemoveItem | frontend/src/ListDetail.tsx:266-281 | removes the row as rendered; on a row rendered from the current cache it is the operation of the run theorems |
| QueryClients.QueryClient.HandleUndo | frontend/src/ListDetail.tsx:285-296 | undo restores a synced row, and adds an unsynced one afresh, without its unit |
| Identity.MergesConserveRows | adapters/db/identity.go:278-301 | over any sequence of merges every row stays, keeps its other columns, and each credited user is the image of the original under the composed source-to-target maps |
| Identity.ImageKeepsCredit | adapters/db/identity.go:278-301 | no credit is lost or invented |
| Identity.MergeMovesCounts | adapters/db/identity.go:219-231 | the target's counts become the sums, the source's become zero, everybody else's stay |
| Identity.CountsAreTheRowsMoved | adapters/db/identity.go:278-301 | the counts a merge reports are the numbers of rows whose credit it changed |
| Identity.MergedMembers | adapters/db/identity.go:305-342 | of the members rows a merge removes the source's, keeps all others as they are, and gives a local target without one a row with its own name and email; of the users it removes a local source |
| Identity.KnownKinds | adapters/db/identity.go:162-214 | a users row makes an id local, a members row alone a login, under the dev subject the dev one, and neither unknown |
| Identity.MergeKeepsNamesResolvable | adapters/db/identity.go:247-342 | merging onto a known identity goes through; the target then has a members row, the source has none and no credit, every user that could be named still can be, under the merge, and the assumptions hold for the next merge |
| Identity.ChainKeepsNamesResolvable | adapters/db/identity.go:247-342 | the same over chains of merges |
| Identity.MergeKeepsUserIdsUnique | adapters/db/identity.go:327-342 | no merge breaks the unique index on members.user_id |
| Repositories.UpdateWhere | adapters/db/identity.go:282-298 | an UPDATE changes exactly the rows its condition selects and reports which |
| Repositories.IdentityRepository.MoveAttribution | adapters/db/identity.go:278-301 | the three updates move all credit and report the source's counts beforehand |
| Repositories.IdentityRepository.DeleteSourceIdentity | adapters/db/identity.go:305-321 | removes the source's members row, and its users row when it is local |
| Repositories.IdentityRepository.SeedTargetMember | adapters/db/identity.go:327-342 | inserts a local target's members row unless its subject is taken; a taken user id is an error |
| Repositories.IdentityRepository.MergeInto | adapters/db/identity.go:247-274 | the transaction: all of it with the source's counts, or nothing |
| Trend.RebuildRoundTrip | hack/dashboard/render.go:188-209 | when the text before the section holds no start marker, the rows extracted from a rebuilt body are the merge of the previous body's rows with the new row, exactly when the shortened commit is hexadecimal (or no row is added) |
| Trend.HistorySurvivesRebuilds | hack/dashboard/trend.go:41-82 | over any series of rebuilds from an empty body, the rows read back are at most 20, newest first, no commit twice, each as the run that added it made it; the latest commit is there, and all are until there are 20 |
| Trend.SectionRoundTrip | hack/dashboard/render.go:195-209 | any well-formed rows, printed after any unmarked text, are read back exactly |
| Trend.SectionReadsBack | hack/dashboard/trend.go:41-65 | of rows of non-blank fields exactly the ones with a hexadecimal commit are read back: no other line matches the pattern |
| Trend.BadCommitIsLost | hack/dashboard/render.go:188-209 | a run whose shortened commit is not hexadecimal, of non-blank characters, leaves nothing to read back, and costs a full table its oldest row |
| Trend.HistoryWithBadCommits | hack/dashboard/trend.go:41-82 | so over any series of rebuilds such runs cost a full table a row each, and nothing else |
| Trend.ExtractedIsWellFormed | hack/dashboard/trend.go:41-65 | whatever a body holds, only well-formed rows come out |
| Trend.RowParsesBack | hack/dashboard/render.go:202-204 | a printed row matches the row pattern and gives its five fields back, even when they contain bars |
| Trend.BetweenIsTable | hack/dashboard/trend.go:115-129 | the text between the first start marker and the first end marker after it is the table: no printed row can contain a marker |
| Trend.MergeKeepsCommits | hack/dashboard/trend.go:70-91 | merging always holds the new commit and drops none before the table is full |
| Trend.RunsAddRows | hack/dashboard/render.go:188-193 | a run with coverage and a commit has its commit in the table afterwards; any other leaves the table alone |
| Trend.RowCaptures | hack/dashboard/trend.go:21-23 | the captures of a matching line are five non-empty words, the second of them hexadecimal |
| Trend.NewRow | hack/dashboard/render.go:214-232 | the new row can be read back exactly when the shortened commit is hexadecimal |
| Trend.NewRowTells | hack/dashboard/render.go:214-237 | date and commit are starts of their inputs, the coverage cell reads back as whole part and tenth, and the lint and test cells as their counts, or "n/a" without one |
| Trend.CellsFollowTheHeader | hack/dashboard/render.go:195-204 | a printed row has its five fields in the header's order |
| Trend.HeaderNamesTheCells | hack/dashboard/render.go:195-201 | the header names date, commit, coverage, lint debt and tests |
| Trend.TrendDate | hack/dashboard/trend.go:97-110 | the date the timestamp begins with, and "n/a" exactly when it begins with none |
| Trend.ShortCommit | hack/dashboard/render.go:22-28 | the first seven characters of the commit, or all of it when it is shorter |
| Trend.DigitsAreRead | hack/dashboard/render.go:223-229 | a printed number reads as that number |
| Trend.ExtractTrend | hack/dashboard/trend.go:41-65 | the loop over lines keeps exactly the lines that parse |
| Trend.MergeTrend | hack/dashboard/trend.go:70-82 | the search loop and the two outcomes |
| Trend.RenderTrendSection | hack/dashboard/render.go:188-209 | extract, merge and print |
| Regex.MatchMeaning | hack/dashboard/trend.go:21-23 | greedy matching with backtracking succeeds exactly on the texts that split as the pattern asks, and its captures are such a split |
| Substrings.SplitJoins | hack/dashboard/trend.go:49 | splitting on newlines loses nothing and leaves none |
| Substrings.OnlyReturnsAreTrimmed | hack/dashboard/trend.go:49-52 | of a line's carriage returns exactly the ones at its end go |

## Left out

- Floating-point tokens and the saturation of `time.Duration`: credit is exact, and the clock is an integer number of nanoseconds.
- Buckets as heap objects: the limiter's map holds bucket values, so two references to one bucket are not captured; the source never shares one.
- The client's address (`clientIP`), bcrypt, sessions, cookies, OIDC and the redirect rules: the address is a key, the comparison an arbitrary boolean, the session an arbitrary outcome.
- The login semaphore's queueing: a slot is acquired or not, as the environment decides.
- Goroutine scheduling inside `Subscribe`'s channel machinery: a channel is its buffer and whether it is open; blocking receives are steps that wait.
- React Query's retry, pause, persistence and replay order: pausing and going on- or offline are steps of the environment; a hook's asynchronous `onMutate` is one step with the mutation it queues.
- Server responses on the client (replacing temporary ids, refetches, rollback after a failed request): the client theorems are about what happens between two of them. A failed check's rollback restores the detail but not the overview's counts.
- A list screen without a cached detail: it shows no rows to change, so the model's detail is always cached; the overview may or may not be.
- Real SQL locking and isolation: a statement is atomic, and the copy and the merge are one transaction each. UUIDs are numbers and timestamps whole microseconds.
- Merges among the calls an interleaved run comes to: `Interleaving.Linearizes` is about the service's calls. Merges are part of `Interleaving.BuyerIsTheLastToWrite`.
- The single-list variant of the overview query (`List`) and renaming in the client: the same query and the same patch again.
- The 32-bit width of the quantity column: `Fold.SchemaQuantity` has the request schema's bound, the tables hold any integer.
- What the request validator does with a schema's `default`: the library that validates requests is not part of this model; requests are modelled by what the schema demands of them.
- The order in which queued mutations are sent: `Sync` sends them in the order they were queued, one at a time, with nobody else changing the list.
- Bytes that are not valid UTF-8: validated names and notes are sequences of runes.
- How members rows come to be at login: that a local user's row carries the user's UUID text as its subject is assumed, and proved to be kept by merges.
- The dashboard body ahead of the trend section (header, summary, coverage, lint tables) and the parsing of its inputs: an arbitrary text without the start marker. The coverage percentage is given already rounded to tenths.
- HTTP routing, middleware, problem pages, metrics, generated code, migrations, the CLI's prompts and the React components: input, output and wiring.
- `useUndoQueue.ts`, `live.ts`, `config/`, `QuantityField.tsx` and the lint counting are not part of this model.
