# A verified model of ygo

ygo is a Go implementation of the Yjs shared-editing CRDT. Clients edit lists, maps and
rich text without coordination; updates may arrive in any order, twice, or cut into other
pieces; every replica must end with the same document. This project models the parts of
ygo that make this work and proves them correct for all inputs and all runs.

`dafny verify dfyconfig.toml` checks everything.

## What is modelled

**The list CRDT** (`Yata`, `KeyedLists`, `Items`, `ItemStore`, `KeyTable`, `Document`, `Cascade`,
`MapEntries`, `Replication`, `Replica`).
An item of length *n* is seen as *n* units, each with the unit before it as left origin and
all with the item's right origin. `Yata` has the conflict scan on units and the invariant
of every list it builds: each unit stands between its origins, and the units between a unit
and its origins obey an order that leaves exactly one arrangement. From that follow
convergence, commutation of concurrent units and the absence of interleaving.
`KeyedLists` lifts this to a list whose entries carry map keys. `Items` proves that
the item algorithm, which looks at whole items, refines the unit algorithm. `Document` is
the mutable document: one list per shared type, one slice of items per client and the table
of the item that holds each map key. Integration, splits, merges, deletions and garbage
collection keep lists and slices in agreement (`ItemStore`) and the table right
(`KeyTable`): the value of a key is always its last unit, unless its deletion was asked for.
`Replication` is the system: any number of clients that write and deliver units in any
causal order; every reachable state keeps the invariant, a write lands exactly where it was
made and stays between what its writer saw, and no unit ever moves past another. `Replica` joins the two: a document
that takes in what is delivered shows, after every delivery, what its replica of a run holds.
`MapEntries` says, for every run, which write of a key wins. `Cascade` is the deletion of all
that is nested in a deleted item, by a walk over links without a stack.

**Delivery** (`Delivery`, `PendingQueue`, `PairingHeap`, `PendingGroups`, `Arrival`, `DeleteSets`). Structs are parked
until their dependencies are there. The clocks that are integrated are the least fixpoint of
everything received, whichever of the worklists computes it: naive retries, the waiter
worklist with a binary heap per client, or the groups with pairing heaps threaded through one table.
A replica fed through the queue takes part in a run of `Replication`, so replicas that received
the same structs show the same lists, whatever each of them held before (`Arrival`). Deletes are conserved: each is in effect or
parked.

**Positions** (`ListItems`, `Faces`, `SearchMarkers`, `FirstLive`, `Moves`, `Showing`, `ListSteps`, `Transactions`,
`ArrayDelta`). Search markers cache
positions; a lookup through them answers what a walk from the head answers, and edits keep
them right. Moves show an element elsewhere; arbitration is independent of the order of events
and every live element shows exactly once. The face of a list (`Faces`) is its units and moves in
order, live or deleted, without items and winners; a settled list shows what its face says
(`Showing`), and a transaction gives the list the face its steps spell (`ListSteps`). A transaction records what it changes;
`Transactions` proves that the records tell, after every step, what the list showed when it
began, and the delta of an array event turns that into what it shows now.

**Rich text** (`RichText`, `TextEdits`, `StyleCache`). A unit has the attributes that the live markers
before it set. Formatting, inserting, deleting, whole deltas and the cleanups have exact effects on what
the units show. `StyleCache` keeps the attributes of one item between edits; cursors and
keystrokes that use them end where a walk over the text ends.

**Ranges and merging** (`AttrRanges`, `IdSets`, `StructMerge`, `ParentResolution`, `MergeStore`). Range lists
behave clock by clock as sets and attributed maps; merging updates is a union of units and
a diff is a restriction; parents are found on every graph of origins, and `MergeStore` draws that graph
from the structs of an update.

**Presence** (`Awareness`). A last-writer-wins map with tombstones and limits.

Classes stand for the objects the source updates in place, methods with loops for its loops.
Slices and linked lists are fields of type `seq`; a list item is named by its index or its id.
Clocks and counters are unbounded integers.

## Where the code and its documentation disagree

The model follows the code.

- `updateMarkerChanges` documents that each surviving marker still tells the rendered start of
  its item (crdt/search_marker.go:301-303). It does for every insert at a position that exists.
  `YArray.Insert` also accepts positions beyond the end and appends (crdt/yarray.go:221-223),
  but passes the position on as it is; a marker on a live item behind the last one that shows is then not
  shifted. `SearchMarkers.BeyondEnd` gives the exact condition, `SearchMarkers.BeyondEndExample` an instance.
- `deleteRange` accepts a negative start as the first position (crdt/yarray.go:376-377), and
  again passes it on: a marker inside the deleted stretch, on a live item that shows nothing itself, gets a
  negative index, unless the delete cut an item or removed a moved one, which drops all markers.
  `SearchMarkers.ListType.DeleteRange` gives the exact condition on the list and the markers before the call,
  `SearchMarkers.NegativeDeleteExample` an instance.
- The room check of awareness says that the own client is never refused (awareness/awareness.go:711-714);
  the code makes no exception for a live state of the own client that is not tracked yet.
  `Awareness.OwnClientRefused` builds such a room for any two live entries.
- `IntersectIDMaps` documents that a range of the result carries the attributes of both sides
  (crdt/idmap_ops.go:71-74). It concatenates them, so an attribute may come twice, and the test for
  equal attributes (crdt/idmap.go:105-116) compares lengths and one inclusion only: reading the result may join
  touching ranges with different attributes. `IdSets.ReadIntersection` gives the exact condition,
  `IdSets.IntersectLoses` an instance.

## Model

| member | source | states |
|---|---|---|
| Yata.ScanSound | crdt/item.go:116-181 | wherever the scan stops, the units on either side are ones the new unit may stand between, so the ordering invariant survives |
| Yata.Barrier | crdt/item.go:134-180 | a unit in the gap whose origin lies before the gap shuts out all later units hanging from the left part of the gap, because its writer had not seen the new unit's origin |
| Yata.IntegrateKeeps | crdt/item.go:103-208 | integrating a ready unit keeps the invariant of the list |
| Yata.AgreeOnOrder | crdt/item.go:103-208 | any two lists with the invariant order the units they share alike |
| Yata.UniqueArrangement | crdt/item.go:103-208 | two lists with the invariant over the same units are equal |
| Yata.ConcurrentUnitsCommute | crdt/item.go:103-208 | two concurrent units that are ready now give the same list in either order |
| Yata.RunsDoNotInterleave | crdt/item.go:134-180 | runs typed concurrently into one gap are ordered by client and no unit of one stands inside another |
| KeyedLists.ScanEmbeds | crdt/item.go:116-181 | scanning a list that mixes map keys stops at the place where scanning only the units of the key stops |
| KeyedLists.IntegrateProj | crdt/item.go:103-208 | integration into the mixed list integrates into the list of the unit's key and leaves every other key's list alone |
| Replication.DeliveredAnchors | crdt/update.go:1451-1586 | a delivered unit finds both origins in the list of its key, in the order its writer saw them |
| Replication.DeliveredHonest | crdt/item.go:103-208 | whatever the writer of a unit had seen lies outside the unit's gap in every replica |
| Replication.DeliveredReady | crdt/update.go:1451-1586 | every delivered unit meets what the list algorithm demands of it |
| Replication.WrittenReady | crdt/yarray.go:252-282 | a unit written locally between two neighbours meets what the list algorithm demands, and integration puts it exactly there |
| Replication.WriteKeeps | crdt/yarray.go:252-282 | a local write keeps the invariant of all replicas |
| Replication.DeliverKeeps | crdt/update.go:1451-1586 | a delivery keeps the invariant of all replicas |
| Replication.EveryStateOk | crdt/update.go:547-596 | every state of every run satisfies the system invariant |
| Replication.WriteGoesThere | crdt/yarray.go:252-282 | in every state of every run a write at an index puts a new unit with the writer's next clock exactly there, naming the units on both sides; every other type, key, clock and replica is as before |
| Replication.DeliveryAddsOne | crdt/update.go:1451-1586 | in every state of every run a delivery adds the unit to the list of its key at one place; every other type, key, clock and replica is as before |
| Replication.IntentKept | crdt/item.go:103-208 | what a writer saw before the place it wrote at is before the new unit in every replica at every later time, and what it saw behind it is behind |
| Replication.Convergence | crdt/update.go:547-596 | in every state of every run, replicas with the same clocks hold equal lists for every type and key |
| Replication.NoReordering | crdt/item.go:103-208 | replicas with different units, looked at at different times, agree on the order of those they share, in every run |
| Replication.NeverStuck | crdt/update.go:1451-1586 | a replica that lacks a unit always has some delivery enabled that it lacks |
| Replication.TwoWriters | crdt/item.go:144-158 | a run of four events: two clients write at one place without knowing of each other, exchange, and hold both units in one order |
| Items.SplitView | crdt/item.go:508-550 | the halves of a split item have exactly the units, flags and values of the whole |
| Items.MergeView | crdt/transaction.go:372-478 | a merged item has exactly the units, flags and values of its parts |
| Items.SplitThenMerge | crdt/transaction.go:372-478 | the halves of a split are always mergeable and merge to the original |
| Items.ScanItems | crdt/item.go:116-181 | scanning items, with sets of examined items, stops where scanning their units stops |
| Items.UnitsStayTogether | crdt/item.go:183-208 | integrating the units of an item one by one puts them side by side where the first one goes |
| Items.ItemIsItsUnits | crdt/item.go:103-208 | putting an item where the item scan says gives the list that integrating its units one by one gives |
| Items.InsertView | crdt/item.go:183-208 | inserting an item inserts its units at one place of the view and changes nothing else |
| ItemStore.SearchAfter | crdt/store.go:67-85 | bisection: all items before the answer start at or before the clock, all others after it |
| ItemStore.FindIn | crdt/store.go:67-85 | the item that holds a clock, found exactly if the clock is below the end of the slice |
| ItemStore.InsertionPoint | crdt/store.go:217-226 | the right half of a split belongs directly after its left half in the slice |
| ItemStore.SplitKeeps | crdt/item.go:508-550 | a split in list and slice keeps them in agreement, slices contiguous and every view |
| ItemStore.JoinKeeps | crdt/transaction.go:372-478 | a merge in list and slice keeps them in agreement, slices contiguous and every view; the absorbing item is the one before in the slice |
| ItemStore.AddKeeps | crdt/item.go:183-240 | a new item at the end of its client's slice keeps list and slices in agreement, and origins in the list |
| ItemStore.FlagKeeps | crdt/item.go:424-485 | deleting an item in list and slice keeps them in agreement and every unit, id and clock |
| KeyTable.TopIsLast | crdt/item.go:345-352 | the last item of a key ends in the last unit of the key |
| KeyTable.EntryIsTop | crdt/item.go:353-379 | an item is the entry of its key exactly if it is the last item of the key in its list |
| KeyTable.CutKeepsBooks | crdt/item.go:527-532 | a split keeps the table and the deletions of keys right: an entry moves to the right half |
| KeyTable.JoinKeepsBooks | crdt/transaction.go:453-456 | a merge keeps them right: an entry moves to the left item |
| KeyTable.PutKeepsBooks | crdt/item.go:353-379 | a new item keeps them right: the last item of its key is the entry, the former entry or the new item is deleted, and no other item |
| KeyTable.AskKeepsBooks | crdt/item.go:424-485 | a deletion that was asked for keeps them right |
| Document.Document.SplitItem | crdt/item.go:508-550 | the list is cut exactly there, lists and slices agree, no view changes; an entry of the key table moves to the right half and the table stays right |
| Document.Document.Find | crdt/store.go:67-85 | the item of a list that holds an id |
| Document.Document.CleanEnd | crdt/store.go:91-110 | afterwards an item ends exactly at the id; no view changes |
| Document.Document.CleanStart | crdt/store.go:123-140 | afterwards an item starts exactly at the id, and item boundaries before it are where they were; no view changes |
| Document.Document.Bracket | crdt/item.go:81-115 | the items next to the origins of a new item, cut so that the origins end and start an item; no view changes |
| Document.Document.ScanConflicts | crdt/item.go:116-181 | the loop with its two sets of items answers what the recursive scan answers |
| Document.Document.Integrate | crdt/item.go:92-379 | the units of the list become the unit-by-unit integration of the item, the item's cells go to one place, all other views stay; of the items of its key exactly the loser, the former holder or the new item, is deleted; lists, slices, table and deletions agree |
| Document.Document.Arrive | crdt/item.go:81-390 | exactly the units of the item from the offset on are new, at one place, with its values and kinds; the item is deleted exactly if it came so, is in a deleted type or does not get its key; no other flag changes save that of the item that loses the key to it; deletions asked for, new items and all other lists are exact |
| Document.WinnerIsLast | crdt/item.go:353-379 | an item does not get its key exactly if the last unit of the key is another one's |
| Document.Document.InDeleted | crdt/item.go:382-384 | whether the item that holds a nested type is deleted |
| Document.Document.Place | crdt/item.go:110-181 | the place the conflict scan gives, also where the test by the key table skips the scan |
| Document.Document.IsRightmost | crdt/item.go:353-369 | whether no item of the key follows, by the table or by the walk to the right |
| Document.Document.Overwrite | crdt/item.go:370-379 | exactly the loser of the key is deleted; no unit and no clock changes |
| Document.Document.PutIn | crdt/item.go:183-379 | the item is at its place and in its slice, its key is settled, and everything stays in agreement |
| Document.Document.Begin | crdt/doc.go:612-625 | a new transaction has no new items; everything stays in agreement |
| Document.Document.Open | crdt/doc.go:365-384 | the type exists, empty if it is new; nothing else changes |
| Document.Document.DeleteItem | crdt/item.go:424-485 | the flag of the item, the deletion is on record, no unit changes, and table and deletions stay right |
| Cascade.OrderOk | crdt/item.go:424-503 | the items a deletion reaches are reached once each, were live and lie below the deleted one |
| Cascade.OrderIsAll | crdt/item.go:424-503 | they are all live items below, if no live item lies below a deleted one |
| Cascade.Items.FirstLive | crdt/item.go:473-482 | the first live sibling, with nothing to delete before it |
| Cascade.Items.NextItem | crdt/item.go:490-503 | climbs by parent links to the next item to delete, or proves that none is left |
| Cascade.Items.Visit | crdt/item.go:424-485 | one turn deletes and records the item it stands on, if it is live, and moves to the next item of the walk, or the walk is done |
| Cascade.Items.Delete | crdt/item.go:424-503 | the record grows by exactly the live items from the deleted one down, in the order of a depth-first walk; everything below is deleted then if no live item lay below a deleted one |
| Document.Document.DeleteKey | crdt/ymap.go:238-264 | the key has no value afterwards; exactly the live item that ends in the last unit of the key is deleted, if there is one |
| Document.Document.Get | crdt/ymap.go:268-296 | the value of the last unit of the key, and none exactly if there is no such unit or its deletion was asked for |
| Document.HolderAsked | crdt/ymap.go:281-284 | the entry of a key is deleted exactly if the deletion of the key's last unit was asked for: a value is never lost by being overwritten, split or merged |
| Document.Document.TryMergeWithLeft | crdt/transaction.go:372-478 | merges exactly if the left neighbour is continued; list and slice lose that one boundary, no view changes; an entry of the key table moves to the left item and the table stays right |
| Document.Document.SquashRuns | crdt/transaction.go:167-299 | no two neighbouring items of live text of this transaction are left of which one was typed right after the other; all other items and everything with a key stay |
| Document.Document.CollectRuns | crdt/snapshot.go:420-486 | no two neighbouring tombstones of one key are left of which one was written right after the other and is not the entry of the key; all other items stay and every entry is still there |
| Document.Document.MergeRuns | crdt/snapshot.go:420-486 | no run of new text, or of tombstones that hold no key, is left in parts; all other items stay, the table is unchanged and right, other slices are untouched and no view changes |
| Document.SquashedIsUnkeyed | crdt/transaction.go:217-240 | text that is squashed has no key, though the code does not compare keys |
| Document.FollowsIsContinues | crdt/snapshot.go:447-486 | the tests made before a squash or a collection are exactly the conditions for a merge, and never absorb an entry |
| Document.NoneLeftJoin | crdt/snapshot.go:403-472 | absorbing an item leaves nothing to absorb below the next one of the slice |
| MapEntries.LastOfProj | crdt/item.go:345-352 | the winner of a key is the end of the list of that key |
| MapEntries.SameWinners | crdt/item.go:345-379 | in every state of every run, replicas with the same clocks have the same winner for every key |
| MapEntries.HighestClientWins | crdt/item.go:345-379 | of the writes over the same value, the one of the highest client leads to the winner, at every step from the first writes to the winner |
| MapEntries.WinnerInRun | crdt/item.go:345-379 | the same in every state of every run, at every replica |
| Delivery.LeastIsUnique | crdt/pending_resolver.go:12-20 | the clocks reached do not depend on how they were reached |
| Delivery.PartialIsReady | crdt/update.go:1451-1586 | a struct of which a part is integrated has all its dependencies |
| Delivery.MinimumAtRoot | crdt/pending_resolver.go:215-246 | the root of a heap has the least clock |
| Delivery.Push | crdt/pending_resolver.go:215-226 | a heap again, with exactly one more waiter |
| Delivery.Pop | crdt/pending_resolver.go:228-246 | a heap again, with exactly its root removed |
| Delivery.Blocker | crdt/pending_resolver.go:162-175 | an unmet dependency of a struct that cannot be integrated |
| Delivery.ParkKeeps | crdt/pending_resolver.go:181-213 | a blocked struct moves from the stack to the one heap of the client it waits for |
| Delivery.WakeKeeps | crdt/pending_resolver.go:181-213 | a woken struct moves from its heap to the stack, and from no other |
| Delivery.Wake | crdt/pending_resolver.go:181-213 | afterwards every waiter of every heap waits for a clock that is still missing |
| Delivery.IntegratePending | crdt/pending_resolver.go:181-213 | the clocks reached are the least fixpoint of the queue; done means integrated and not done means blocked |
| PendingQueue.GateIsSafe | crdt/store.go:250-268 | when the watermark says no retry, no parked struct is ready |
| PendingQueue.Watermark | crdt/update.go:1593-1615 | the clock of the client of the first missing dependency, or of the struct's own client, is recorded, and makes the watermark cover the struct |
| PendingQueue.Queue.TryIntegrate | crdt/update.go:1451-1586 | the clocks after one attempt, and whether anything of the struct remains |
| PendingQueue.Queue.FirstPass | crdt/update.go:610-749 | after decoding, each received struct is integrated, parked or deferred, and no clock exceeds what any closed state has |
| PendingQueue.Queue.DecodeGroup | crdt/update.go:610-749 | the same for one client's group; later groups still find their clocks as they were at the start |
| PendingQueue.Queue.RetryPass | crdt/update.go:758-780 | one pass loses no struct, and without progress everything left is blocked |
| PendingQueue.Queue.ResolveDependencies | crdt/pending_resolver.go:83-150 | the walk over producers ends and loses no struct |
| PendingQueue.Queue.ResolveWaiters | crdt/pending_resolver.go:250-260 | what is left is blocked, in the same order |
| PendingQueue.Queue.ResolveWithinUpdate | crdt/update.go:758-780 | every deferred struct is integrated or parked under the watermark |
| PendingQueue.Queue.Park | crdt/pending_resolver.go:263-279 | the queue grows by exactly the blocked structs and the watermark covers them |
| PendingQueue.Queue.Drain | crdt/update.go:789-842 | afterwards no parked struct is ready |
| PendingQueue.Queue.Apply | crdt/update.go:547-596 | the clocks are the least fixpoint of everything ever received, and parked are exactly the structs not integrated |
| PendingQueue.AtRest | crdt/update.go:846-862 | a state in which nothing parked is ready is the least fixpoint |
| PendingQueue.OrderDoesNotMatter | crdt/update.go:547-596 | replicas that received the same structs, in any order, grouping or multiplicity, have the same clocks and park the same structs |
| Arrival.FeedLog | crdt/update.go:1451-1586 | whatever structs a queue attempts, in whatever order, starting from whatever the replica holds, the units it integrates are deliveries of a run, and for every client the document ends at the later of its own clock and the clock of the structs fed |
| Arrival.CatchUp | crdt/update.go:547-596 | a replica that is behind its queue can be delivered, in a run, exactly what brings it to the clocks of the queue |
| Arrival.NothingTakenBack | crdt/update.go:547-596 | a queue that received at least what a replica was fed is nowhere behind it |
| Arrival.ArrivalOrderDoesNotMatter | crdt/update.go:547-596 | two replicas of any run, whatever each holds, whose queues received the same structs in any order, grouping or multiplicity, end with equal lists for every type and key |
| Replica.DeliverItem | crdt/update.go:1451-1586 | the units of an item that is due are deliverable one after the other, and the replica then holds its list with the item integrated and every other list as before |
| Replica.DuePlaceable | crdt/item.go:81-115 | an item of a run whose turn has come meets what integration into the list demands |
| Replica.TakeIn | crdt/update.go:547-596 | a document that shows a replica of a run and takes in a due item, from any unit on, shows the replica of a longer run in which only that replica went on; the cells and flags that changed are exact |
| PairingHeap.LeastFirst | crdt/pending_groups.go:111-150 | the root of a pairing heap has the least awaited clock |
| PairingHeap.LinkUnder | crdt/pending_groups.go:111-124 | two writes to the table make one root the first child of the other and give a heap of both |
| PairingHeap.Meld | crdt/pending_groups.go:111-124 | a heap of exactly the elements of both; the rest of the table is untouched |
| PairingHeap.PairUp | crdt/pending_groups.go:127-150 | the first pass loses no element and keeps every heap in order |
| PairingHeap.MeldAll | crdt/pending_groups.go:127-150 | the second pass gives one heap of all elements |
| PairingHeap.Pop | crdt/pending_groups.go:127-150 | a heap of all elements but the root, which was least and comes out without children; the rest of the table is untouched |
| PendingGroups.Next | crdt/pending_groups.go:87-99 | the cursor stands at the next struct, everything before it is integrated or skipped |
| PendingGroups.Missing | crdt/pending_groups.go:101-109 | a dependency that is not integrated, or none if there is none |
| PendingGroups.Find | crdt/pending_groups.go:164-178 | the group of a client, by bisection, or that it has none |
| PendingGroups.BlockedGroup | crdt/pending_groups.go:154-214 | while its current struct is blocked no later struct of a group is ready |
| PendingGroups.NothingRunnable | crdt/pending_groups.go:154-214 | with nothing queued or running, no struct of the update can be integrated |
| PendingGroups.Resolver.constructor | crdt/pending_groups.go:154-184 | every group starts at its first struct and waits nowhere |
| PendingGroups.Resolver.QueueAll | crdt/pending_groups.go:179-184 | every group is queued, with the queue and the heaps threaded through one table |
| PendingGroups.Resolver.Dequeue | crdt/pending_groups.go:185-188 | exactly the first group of the queue starts to run |
| PendingGroups.Resolver.Step | crdt/pending_groups.go:190-205 | one struct further: only the group's own clock grows and less is left |
| PendingGroups.Resolver.Run | crdt/pending_groups.go:189-205 | the group stops exhausted or blocked; other groups stay where they are, and its clock grew only if less is left |
| PendingGroups.Resolver.Block | crdt/pending_groups.go:195-201 | the blocked group waits in one heap, under the missing clock |
| PendingGroups.Resolver.Wake | crdt/pending_groups.go:206-212 | exactly the watchers whose awaited clock is now below the frontier are queued; all others stay |
| PendingGroups.Resolver.Resolve | crdt/pending_groups.go:154-214 | the known clocks end at the least fixpoint of the structs of the update |
| DeleteSets.Search | crdt/delete_set.go:166-245 | bisection: the first item that ends after a clock |
| DeleteSets.CleanStart | crdt/store.go:123-140 | a boundary at the clock, the same units, and boundaries elsewhere as before |
| DeleteSets.MarkDead | crdt/delete_set.go:166-245 | exactly the integrated units of the range are marked, and counted |
| DeleteSets.ApplyRange | crdt/delete_set.go:166-245 | the applied and the parked part are disjoint and together the range |
| DeleteSets.ApplyRanges | crdt/delete_set.go:166-245 | dead are exactly the units dead before and the integrated ones of the ranges; parked are exactly the others |
| DeleteSets.SortAndCompact | crdt/delete_set.go:84-104 | sorted ranges with gaps that cover the same clocks |
| DeleteSets.SortAll | crdt/delete_set.go:140-151 | every client's ranges sorted, the same clocks, each client visited once |
| DeleteSets.Store.ApplyToPartial | crdt/delete_set.go:166-245 | for every client, integrated deletes are in effect and the rest is returned |
| DeleteSets.Store.MergePending | crdt/delete_set.go:67-82 | parked is exactly what was parked and what is added |
| DeleteSets.Store.RetryPending | crdt/delete_set.go:140-151 | nothing parked is due, no delete is lost, no clock changes |
| DeleteSets.Store.Integrate | crdt/item.go:236-240 | an item arrives, live or deleted: the account of what is deleted and why stays exact, other clients stay as they are |
| DeleteSets.Store.IntegrateAll | crdt/update.go:547-596 | exactly the units of the items that arrive dead, at the clocks they are given, are deleted by it |
| DeleteSets.Store.DeleteHere | crdt/item.go:424-485 | units deleted by an edit or by a newer entry of their key are on the account, nothing else is |
| DeleteSets.Store.Receive | crdt/update.go:584-593 | exactly the deletes received so far, and what was deleted here, are in effect or parked |
| DeleteSets.Store.Apply | crdt/update.go:547-596 | afterwards exactly the units deleted here or arrived deleted and the integrated ones of all deletes ever received are deleted; what arrived deleted is told unit by unit; nothing parked is due |
| SearchMarkers.BracketIsCold | crdt/search_marker.go:354-407 | at most one item brackets a position, and the walk from the head finds it |
| SearchMarkers.ColdResumes | crdt/search_marker.go:140-150 | the walk may start after items that do not reach the position |
| SearchMarkers.RenderedLength | crdt/search_marker.go:50-74 | positions are indexes into the rendered units |
| SearchMarkers.ListType.WalkCold | crdt/search_marker.go:354-366 | the item that reaches a position and its start |
| SearchMarkers.ListType.WalkLeft | crdt/search_marker.go:383-407 | walking left from an item that ends at or after a position gives the answer of the walk from the head |
| SearchMarkers.ListType.Nearest | crdt/search_marker.go:91-117 | a marker with the least distance |
| SearchMarkers.ListType.FindRO | crdt/search_marker.go:91-150 | the answer of the walk from the head, for every set of accurate markers |
| SearchMarkers.ListType.FindMut | crdt/search_marker.go:165-175 | the same answer, with markers refreshed as said above and still accurate |
| SearchMarkers.ListType.MarkPosition | crdt/search_marker.go:262-276 | one more accurate marker, in the place of the oldest if there are as many as allowed |
| SearchMarkers.ListType.MarkPositionAt | crdt/search_marker.go:182-257 | the newest marker is at the front of the run in which the position lies, never in the middle of one; the nearest marker is used, and moved there exactly if the way was short; all markers stay accurate |
| SearchMarkers.ListType.LeftNeighbourAt | crdt/abstract_type.go:184-231 | an insertion point at exactly the rendered position, or at the end for a position that does not exist |
| SearchMarkers.ListType.UpdateMarkerChanges | crdt/search_marker.go:304-319 | the loop drops and shifts exactly as the specification on lists of markers |
| SearchMarkers.ListType.DropUncountedMarkersAt | crdt/search_marker.go:325-331 | exactly the markers on items without positions at the index are dropped |
| SearchMarkers.ListType.Integrate | crdt/item.go:210-302 | the item, live, deleted or a move, is at its place; the markers are the old ones, shifted or dropped as told exactly, and accurate unless the hint lies beyond the end and a marker is on a live item behind |
| SearchMarkers.ListType.SplitItem | crdt/item.go:508-550 | the list is cut there and no marker is left |
| SearchMarkers.ListType.MergeWithLeft | crdt/transaction.go:453-478 | nothing shows and no marker is left |
| SearchMarkers.ListType.InsertionPoint | crdt/yarray.go:230-235 | room at exactly the rendered position; nothing shows |
| SearchMarkers.ListType.Insert | crdt/yarray.go:215-282 | the new units show at exactly the position, or at the end if it does not exist; nothing else shows, is deleted or moves; markers stay accurate for every position that exists |
| SearchMarkers.ListType.DeleteShown | crdt/yarray.go:776-842 | one item stops showing, itself or what it moved here, and nothing else does |
| SearchMarkers.ListType.FirstLive | crdt/abstract_type.go:153-163 | nothing shows before the first live item |
| FirstLive.Head.FirstLive | crdt/abstract_type.go:153-163 | the walk from the kept item finds the first live item of the whole list |
| FirstLive.Head.Integrate | crdt/item.go:183-203 | after a new item nothing live comes before the kept item, though it is forgotten only for a new head or after a deleted neighbour |
| FirstLive.Head.Delete | crdt/item.go:424-485 | a deletion keeps that |
| FirstLive.Head.Split | crdt/item.go:508-550 | a split keeps that |
| FirstLive.Head.Merge | crdt/transaction.go:372-478 | a merge keeps that, though it may absorb the kept item |
| SearchMarkers.ListType.DeleteRange | crdt/yarray.go:730-851 | exactly the units of the range are deleted, wherever they stand; nothing is added, removed or moved; markers stay accurate under an exact condition on the list and the markers before |
| SearchMarkers.HintKeepsMarkers | crdt/item.go:221-230 | after a hinted insert the markers that are left are accurate |
| SearchMarkers.AppendKeepsMarkers | crdt/item.go:221-234 | an item without positions or at the end moves no start |
| SearchMarkers.DeleteKeepsMarkers | crdt/yarray.go:843-851 | after a delete the shifted markers are accurate |
| SearchMarkers.BeyondEnd | crdt/item.go:221-234 | after an insert with a hint beyond the end the markers are accurate if and only if none is on a live item behind |
| SearchMarkers.BeyondEndExample | crdt/yarray.go:215-237 | a list on which that fails |
| SearchMarkers.NegativeDelete | crdt/search_marker.go:304-319 | after a delete with a negative start the markers are accurate if and only if, before it, none in the range was on a live item that shows nothing |
| SearchMarkers.NegativeDeleteExample | crdt/yarray.go:843-851 | a list on which that fails |
| SearchMarkers.DeleteTarget | crdt/yarray.go:790-824 | deleting the target of a winning move hides the move and nothing else |
| SearchMarkers.SplitKeeps | crdt/item.go:508-550 | a split leaves what shows before, in and after the item alone |
| SearchMarkers.MergeKeeps | crdt/transaction.go:372-478 | a merge leaves what shows alone |
| SearchMarkers.InsertRendered | crdt/item.go:183-208 | a new item adds its units at one position and changes nothing else that shows |
| Moves.BetterIsTotal | crdt/item.go:601-609 | of two moves exactly one beats the other |
| Moves.WinnerIs | crdt/item.go:598-609 | the winner is a live move of the target, of the lowest client, and of that client the latest |
| Moves.OneBestMover | crdt/item.go:601-609 | replicas with the same live moves of a target have the same winner |
| Moves.EveryElementOnce | crdt/search_marker.go:50-74 | a settled list shows exactly the units of its live elements, each once |
| Moves.RenderedLengthIsLength | crdt/search_marker.go:50-74 | a settled list shows as many units as its live elements have |
| Moves.InvSettles | crdt/item.go:615-638 | with nothing released and nothing to look at, every target has its best live mover |
| Showing.ShowsFace | crdt/item.go:565-661 | a list in which every live move was heard or waits shows what its face says: each live unit in its own place, or in that of the live move of the lowest client and latest clock |
| ListSteps.MoveStepShows | crdt/yarray.go:617-727 | a new live move takes its unit from where it shows and shows it where the move stands if it is the chosen one; otherwise nothing changes |
| ListSteps.ElementStepShows | crdt/item.go:183-208 | a new element shows its units where it comes and changes nothing else, if no live move waits for them |
| ListSteps.EraseStepShows | crdt/item.go:424-485 | deleting a range of elements takes exactly their units off what shows, also where moves show them |
| Moves.Arbiter.ResolveTarget | crdt/item.go:645-661 | the target cut out as one unit, or its absence; order, live units and moves stay |
| Moves.Arbiter.Arbitrate | crdt/item.go:265-282 | the move is answered: its target has it or a better one |
| Moves.Arbiter.HearMove | crdt/item.go:265-282 | a move is answered, or waits under the client of its target; order and live units stay |
| Moves.Arbiter.ResolvePending | crdt/store.go:158-190 | no waiting move of the client is overlooked, and no move is left waiting for a target that is there |
| Moves.Arbiter.IntegrateElement | crdt/item.go:183-288 | the units are in the list at that place, live units and length are the old and the new ones, every live move is answered, waits, or has its target released, and the records of the transaction stay right |
| Moves.Arbiter.IntegrateMove | crdt/item.go:183-288 | the move is in the list at that place, live units are the same, every live move is answered, waits, or has its target released, and the records of the transaction stay right |
| Moves.Arbiter.DeleteElement | crdt/item.go:424-485 | only the flag changes; length, moves and the records of the transaction stay right |
| Moves.Arbiter.DeleteMove | crdt/item.go:578-596 | the move is deleted and exactly the target it had won is released and queued; the records stay right |
| Moves.Arbiter.Commit | crdt/item.go:615-638 | every target has the best of its live moves, nothing is queued, neither order nor deletions change, and the length is the number of units shown |
| Moves.Arbiter.Begin | crdt/doc.go:612-625 | the records are empty and tell that the list is what it is |
| Moves.Arbiter.SetMovedBy | crdt/item.go:562-573 | only the mover changes, it is remembered the first time, and the records stay right |
| Moves.Arbiter.CutElement | crdt/item.go:508-550 | the element is cut, the half is remembered; order, live units, moves and records stay right |
| Moves.Arbiter.MergeHalves | crdt/transaction.go:350-358 | no half is left that continues the item before it; what shows, the order, the winners and the records stay right |
| Transactions.TxnBegin | crdt/doc.go:612-625 | at the start of a transaction the records tell the list as it is |
| Transactions.TxnInsert | crdt/item.go:183-208 | a new item changes nothing of what the records tell |
| Transactions.TxnRemark | crdt/item.go:562-573 | remembering a mover the first time it is replaced keeps what the records tell, however often it is replaced |
| Transactions.TxnDelete | crdt/item.go:430-457 | recording the units of a deleted item keeps what the records tell |
| Transactions.TxnSplit | crdt/item.go:508-550 | a split keeps what the records tell: the halves were together what the item was |
| Transactions.TxnMerge | crdt/transaction.go:350-478 | merging a half with the item before it keeps what the records tell: the two were one item, in one state, when the transaction began |
| ArrayDelta.RunsApply | crdt/yarray.go:99-160 | a delta that accounts for a prefix turns it into its new form and leaves the rest |
| ArrayDelta.ShownBefore | crdt/yarray.go:106-147 | what the transaction recorded tells exactly what a slot showed before, moves included |
| ArrayDelta.OldUnitsRight | crdt/yarray.go:106-147 | the slots that showed before, taken together, are the list as rendered before |
| ArrayDelta.ComputeDelta | crdt/yarray.go:99-160 | applied to what the records tell of the list before, the delta gives the list as rendered now; it deletes as many units as slots stopped showing, inserts exactly the units of slots that started to, and its retains are maximal, not empty and not last |
| ArrayDelta.Event | crdt/yarray.go:99-160 | at any moment of a transaction the delta turns what the list showed when it began into what it shows now |
| ArrayDelta.Do | crdt/item.go:183-208 | one step does to the list what it does to its face: an item at its place, a range deleted, a cut nothing |
| ArrayDelta.EraseRange | crdt/yarray.go:730-851 | item by item, exactly the units and moves of the range are deleted |
| ArrayDelta.Transact | crdt/doc.go:702-712 | after a whole transaction, any steps in any order, the list has the units, moves, flags and clocks that the steps give its face, shows what that face says, and the delta turns what it showed before into that |
| RichText.Cursor.Forward | crdt/ytext.go:710-723 | passes one item and tracks the attributes in effect |
| RichText.Cursor.InsertMark | crdt/ytext.go:912-925 | a marker before the cursor; no unit's attributes change before it |
| RichText.Cursor.Minimize | crdt/ytext.go:930-941 | passes exactly the deleted items and the markers that set what is wanted; nothing shows, and attributes change only to wanted values |
| RichText.Cursor.InsertAttributes | crdt/ytext.go:947-958 | the wanted values are in effect, a marker is inserted for exactly the keys that differ, and the values before are remembered |
| RichText.Cursor.InsertNegated | crdt/ytext.go:964-983 | what follows shows as if the remembered attributes were still in effect, and nothing before the cursor changes; markers that restore a value are passed, and exactly the values left get a new one |
| RichText.Cursor.ApplyFormat | crdt/ytext.go:576-624 | exactly the units of the range take the change; all other units keep their attributes; no unit, shown or deleted, is added, removed or moved; the cursor ends behind the range |
| RichText.Cursor.FormatRange | crdt/ytext.go:591-621 | the units passed take the change, and the remembered values describe what must be restored |
| RichText.Cursor.PassMark | crdt/ytext.go:594-609 | removing or keeping a marker in the range is invisible except for the change; a marker is removed exactly if its key is touched, and only a value other than the wanted one is remembered |
| RichText.Cursor.InsertText | crdt/ytext.go:990-1037 | the new units carry exactly the attributes asked for; all others keep theirs and their places, deleted ones too; the cursor ends behind the new units |
| RichText.Cursor.Advance | crdt/ytext.go:733-752 | passes exactly as many units as asked for or are there, and stops right behind the last, a run cut there; nothing shows |
| RichText.Cursor.DeleteNext | crdt/ytext.go:1301-1328 | exactly the next units go, and stay as deleted units in their places; all others keep their attributes, and nothing before the cursor changes |
| TextEdits.UnreadShowsNothing | crdt/ytext.go:444-522 | a value nobody reads does not show |
| TextEdits.DeleteMark | crdt/ytext.go:444-522 | deleting a marker does not show if its value is in effect anyway or not read |
| TextEdits.HasOpener | crdt/ytext.go:463-485 | whether a value of the key is in effect there |
| TextEdits.HasContent | crdt/ytext.go:486-507 | whether some live unit reads the value of a marker |
| TextEdits.CleanDangling | crdt/ytext.go:444-522 | nothing shows, only markers up to the second live run are touched, not further and not less far, and those left are all useful |
| TextEdits.CleanGapAround | crdt/ytext_format_cleanup.go:208-224 | exactly the last live marker of each key in the gap is kept; nothing shows |
| TextEdits.EndFormats | crdt/ytext_format_cleanup.go:262-270 | the last live marker of each key of a gap |
| TextEdits.CleanGap | crdt/ytext_format_cleanup.go:262-295 | exactly the markers that are overwritten in the gap or restate its start are deleted; nothing shows; current attributes that were right at their place are right there afterwards |
| TextEdits.CleanFormatting | crdt/ytext_format_cleanup.go:229-245 | before the first live run exactly the last marker of each key that sets a value is kept; nothing else changes and nothing shows |
| TextEdits.SkipRestated | crdt/ytext.go:779-807 | exactly the deleted items and the markers that restate what is in effect are skipped; they show nothing and change no attribute |
| TextEdits.FoldMarks | crdt/ytext.go:841-856 | the attributes after a list |
| StyleCache.Styles.AttrsAfter | crdt/ytext.go:819-856 | the attributes in effect after an item, in the order they took effect, kept or walked for, and kept afterwards |
| StyleCache.Styles.InsertRun | crdt/ytext.go:340-357 | new text leaves the kept attributes right, and attributes that were looked up are kept for it |
| StyleCache.Styles.InsertMark | crdt/item.go:313-317 | a new marker makes them out of date |
| StyleCache.Styles.Delete | crdt/item.go:430-435 | deleting a marker makes them out of date, deleting text leaves them right |
| StyleCache.Styles.Regroup | crdt/ytext.go:809-811 | cutting and merging runs leaves them right for whatever item holds the unit |
| StyleCache.Styles.Split | crdt/item.go:508-550 | cutting a run leaves them right and does not show |
| StyleCache.Styles.Neighbour | crdt/ytext.go:895-896 | the live item that reaches a position, and how many of its units lie before it |
| StyleCache.Styles.FindPos | crdt/ytext.go:861-907 | for every position, the cursor made from the kept attributes is the one a walk from the start makes: same items on both sides, same attributes in the same order |
| StyleCache.Styles.SkipRestated | crdt/ytext.go:779-807 | the same items are skipped, with attributes looked up only at a live marker; those returned are in effect behind them |
| StyleCache.Styles.InsertInheriting | crdt/ytext.go:313-358 | with the kept attributes, too, the new units have the attributes of the unit before them, stand where a walk puts them, and all others keep attributes and places |
| TextEdits.FindPos | crdt/ytext.go:861-907 | a cursor after as many live units as asked for, clamped to the text, with the attributes of the unit before it |
| TextEdits.YText.Format | crdt/ytext.go:539-569 | exactly the units of the range take the change; no unit is added, removed or moved |
| TextEdits.YText.InsertAttributed | crdt/ytext.go:313-329 | the new units at the position have exactly the attributes asked for, all others keep theirs and their places |
| TextEdits.YText.InsertInheriting | crdt/ytext.go:331-358 | the new units have the attributes of the unit before them and stand behind the deleted units there; a position that does not exist appends; all other units keep their places |
| TextEdits.YText.Delete | crdt/ytext.go:406-427 | exactly the units of the range stop showing and stay as deleted units in their places; the attributes of all others stay |
| TextEdits.ApplyOp | crdt/ytext.go:1258-1272 | what is behind the cursor grows by what the operation makes of the units in front of it, and exactly the others are still in front |
| TextEdits.YText.ApplyDelta | crdt/ytext.go:1226-1274 | the text shows the delta applied to what it showed: inserts with exactly their attributes, deletes and formats of exactly their units, and all that the delta does not reach; each insert puts its units together, and no unit is removed or moved |
| TextEdits.DeleteFirst | crdt/yarray.go:776-842 | what follows shows without its first units, attributes unchanged; no unit leaves the list |
| AttrRanges.Join | crdt/idmap.go:119-128 | the union, without repetition |
| AttrRanges.SameAttrs | crdt/idmap.go:105-116 | true exactly for lists of one length of which the first is contained in the second |
| AttrRanges.AlikeExact | crdt/idmap.go:105-116 | without repetitions, that is the same set |
| AttrRanges.SplitOverlaps | crdt/idmap.go:152-188 | ends, and gives sorted ranges without overlap that attribute the same, repetitions or not |
| AttrRanges.JoinNeighbours | crdt/idmap.go:189-212 | the loop joins exactly as the specification on lists of ranges |
| AttrRanges.JoinedNormal | crdt/idmap.go:189-212 | no two touching ranges that test as equal are left; the same clocks are covered and nothing is attributed that was not |
| AttrRanges.JoinedSame | crdt/idmap.go:189-212 | the same is attributed if and only if no two touching ranges test as equal without being it |
| AttrRanges.Ranges.Add | crdt/idmap.go:136-142 | each clock of the range gets the attributes, no other changes; repetitions are kept |
| AttrRanges.Ranges.GetIDs | crdt/idmap.go:146-215 | the normal form: sorted, disjoint, not empty, joined where the test says equal; at each clock the union of what was added, if and only if the test never errs, and always without repetitions |
| IdSets.MergeSorted | crdt/idset.go:31-66 | from any sorted list, empty ranges included, ranges with gaps between them and the same clocks |
| IdSets.IdRanges.Add | crdt/idset.go:21-28 | the set grows by exactly the range |
| IdSets.IdRanges.GetIDs | crdt/idset.go:31-66 | sorted ranges with gaps, none empty, and the same clocks |
| IdSets.Exclude | crdt/idset_ops.go:22-101 | the set difference, clock by clock |
| IdSets.Intersect | crdt/idmap_ops.go:75-102 | clocks of both with the attributes of both |
| IdSets.IntersectMaps | crdt/idmap_ops.go:75-102 | the result as it is stored attributes exactly what both attribute |
| IdSets.ReadIntersection | crdt/idmap.go:146-215 | the result as it is read does so if and only if no two touching parts test as equal without being it |
| IdSets.IntersectLoses | crdt/idmap_ops.go:75-102 | for any two attributes, two maps whose intersection loses one when read |
| IdSets.ExcludeFrom | crdt/idmap_ops.go:24-69 | the attributes of all clocks that are not excluded |
| IdSets.Merge | crdt/idmap_ops.go:6-19 | the union, clock by clock and attribute by attribute |
| IdSets.Slice | crdt/idmap.go:320-363 | tiles that cover the asked stretch in order without gap, each with the attributes of all its clocks or none for clocks that are not in the map |
| StructMerge.SliceHas | crdt/merge.go:86-98 | a sliced struct has exactly the units from that clock on, with origins as before |
| StructMerge.SliceFrontLoses | crdt/merge.go:86-98 | slicing keeps the order of the units exactly if nothing is cut off or the struct has an origin or a parent |
| StructMerge.SlicedIsAnchored | crdt/merge.go:103-129 | a struct that deduplication cuts has an origin, so nothing is lost |
| StructMerge.Dedup | crdt/merge.go:103-129 | ascending structs without overlap that carry exactly the units of the input, each a slice of an input struct with its parent and key |
| StructMerge.Emit | crdt/merge.go:136-209 | reading back gives the struct at its own clock, after a skip if there is a gap |
| StructMerge.Encode | crdt/merge.go:136-209 | reading the entries back gives exactly the structs above the given clock, each at its own clock |
| StructMerge.AboveHolds | crdt/merge.go:136-209 | what is above a clock are exactly the units from it on |
| StructMerge.MergeUpdates | crdt/merge.go:313-319 | the merged update, written and read back, carries the union of the units |
| StructMerge.DiffUpdate | crdt/merge.go:326-332 | the diff, written and read back, carries exactly the units the peer lacks |
| StructMerge.MergeCommutes | crdt/merge.go:313-319 | the order of updates does not matter |
| StructMerge.MergeAssociates | crdt/merge.go:313-319 | the order of merges does not matter |
| StructMerge.MergeIdempotent | crdt/merge.go:313-319 | merging an update with itself adds nothing |
| ParentResolution.OneOutcome | crdt/merge.go:247-289 | there is one right parent for a struct, whatever the order of visits |
| ParentResolution.ChainHopeless | crdt/merge.go:247-289 | a chain that ends, meets a struct without hope or bites its tail gives none of its structs a parent |
| ParentResolution.BrentBound | crdt/merge.go:247-289 | a walk longer than the number of structs comes back to the mark in time |
| ParentResolution.BrentStep | crdt/merge.go:247-289 | moving the mark at powers of two bounds the walk by three times the number of structs |
| ParentResolution.Follow | crdt/merge.go:247-289 | ends on every graph, at the first struct with a parent or with the proof that there is none |
| ParentResolution.HandDown | crdt/merge.go:302-307 | every struct of the chain gets its right parent and nobody loses one |
| ParentResolution.ResolveParents | crdt/merge.go:247-289 | every struct has the parent of the first struct with a parent on its chain, or none; its own key stays and a missing one is taken from the struct it refers to |
| MergeStore.Find | crdt/store.go:67-85 | the struct of a client that holds a clock, and none exactly if there is none |
| MergeStore.Lookup | crdt/store.go:67-85 | the struct that holds an id among those of all clients, and none exactly if there is none |
| MergeStore.RefsAreOne | crdt/merge.go:292-300 | which struct another takes its parent from is determined by the structs |
| MergeStore.ParentRefs | crdt/merge.go:292-300 | for every struct the one that holds its origin, or its right origin if it has no origin, or none |
| MergeStore.BuildMergeStore | crdt/merge.go:214-236 | every client has exactly its units, once each, and every struct the parent that the chain of origins through all clients gives it, with its own key or else the inherited one |
| Awareness.Compact | awareness/awareness.go:885-902 | exactly one entry per tombstone is left, in order |
| Awareness.PopOldest | awareness/awareness.go:906-915 | the tombstone that became one first, and a queue of the others |
| Awareness.Awareness.constructor | awareness/awareness.go:182-192 | an empty room meets all invariants |
| Awareness.Awareness.MarkTombstone | awareness/awareness.go:885-902 | the youngest tombstone; the queue has one current entry for each and stays within a constant factor of their number |
| Awareness.Awareness.ForgetTombstone | awareness/awareness.go:918-924 | only the tombstone goes, all tables agree |
| Awareness.Awareness.ReclaimOldest | awareness/awareness.go:906-915 | exactly the oldest tombstone goes and one slot is free |
| Awareness.Awareness.Retire | awareness/awareness.go:804-823 | a tombstone at that clock, its bytes released, all invariants kept |
| Awareness.Awareness.Accept | awareness/awareness.go:824-858 | the state at that clock, its bytes accounted for, all invariants kept |
| Awareness.Awareness.ProtectSelf | awareness/awareness.go:688-705 | a remote removal of the own client only moves its clock past it |
| Awareness.Awareness.CheckRoom | awareness/awareness.go:707-730 | refuses or reclaims exactly for an untracked client in a full room |
| Awareness.Awareness.ApplyEntry | awareness/awareness.go:663-860 | exactly one of: refused without a trace; the own removal answered at a later clock; the state let in with its clock, time and size, for a reclaimed tombstone if need be; or a tombstone from now on, its bytes released |
| Awareness.Awareness.ApplyUpdate | awareness/awareness.go:613-881 | an update that is too large changes nothing; otherwise every entry is taken in turn as said above, the bytes on account are those of the entries in effect and within the limit; without limits the result is the plain merge |
| Awareness.Awareness.SetLocalState | awareness/awareness.go:268-320 | the own state at the next clock after every one seen, heard now |
| Awareness.Awareness.RemoveExpired | awareness/awareness.go:1014-1047 | exactly the silent remote clients become tombstones, from now on, and give back their bytes; clocks stay |
| Awareness.Awareness.PurgeTombstones | awareness/awareness.go:1071-1090 | exactly the tombstones past the grace period go, and nothing else changes; they are counted |
| Awareness.MergeAllDescribes | awareness/awareness.go:663-860 | from any states that earlier entries explain, after any further entries each client has its latest clock, and a state unless an entry of that clock removed it |
| Awareness.DescribesOne | awareness/awareness.go:663-860 | that description has one solution |
| Awareness.OrderDoesNotMatter | awareness/awareness.go:663-860 | from any states consistent with them, any order and any repetition of the same entries gives the same states |
| Awareness.OwnClientRefused | awareness/awareness.go:707-730 | for any two live entries, a room that refuses the own one |

## Left out

- The wire: lib0 varints, `Any` values, the V2 columns and type-class decoding. Updates are lists of groups of structs, values are opaque.
- The byte scanner and the pass budget in front of the group resolver; they decode again what the model has as structs.
- Locks, observers, events other than the array delta, result flags of awareness, contexts, panics and recovery.
- UTF-8 and JSON checks. An awareness entry carries whether it decodes; time and the caller's admission check are parameters.
- Undo, staging of types that are not attached, subdocuments, relative positions, snapshots.
- The delta of text events and the index a local move ends at.
- Bindings, cluster mailboxes and persistence.
- Identifiers in 64 bits: clocks are unbounded, so wrap-around and the saturation of range ends are not modelled.
- Structs without a list, which stand for collected content: their clocks are in `Delivery` as all others, but `Document` has no slots for them.
- The first pass of garbage collection, which forgets the content of deleted items; the second pass, which merges them, is `Document.Document.CollectRuns`.
- `Document.Document.DeleteItem` deletes one item; what is nested in it is deleted by `Cascade`, on links instead of lists, without the counters, markers and events beside it.
- The winning move and the redo link of an item are not in the unit view of `Items`; merging there does not compare them. `Moves` has the movers, and merges only what is not moved.
- Moves of moves, and moves of more than one unit; `YArray.Move` makes neither.
- The cap on the number of parked structs, and the error it leads to.
- The flag that a text has no markers; the walk it saves is modelled.
- The order in which clients are visited where the source ranges over a Go map; it is a parameter or left open.
- Calls to the sort library are modelled by insertion sort, range splitting by the source's own loops.
- Aliasing of list nodes: lists are sequences and slices are compared with them by content.
- The search markers during move arbitration: every step of it drops them all, as the source does.
- The kept first item is modelled in `FirstLive`, beside the list it belongs to; `SearchMarkers` walks. Keystrokes and cursors with the kept attributes are in `StyleCache`; formatting and deltas in `TextEdits` walk.
- PendingQueue.Queue.ResolveDependencies: does not say which producer is visited next; the index that suggests it is left open.
- PendingQueue.Queue.Apply: supposes that two structs with a clock in common are parts of the same run, which the wire format gives for honest peers.
- Document.Document.TryMergeWithLeft: does not compare movers and redo links, which the items of this module do not have.
- Document.Document.CollectRuns: does not compare movers and redo links either.
- Document.Document.MergeRuns: does not compare movers and redo links either.
- SearchMarkers.ListType.Insert: for a position beyond the end its condition for accurate markers is sufficient; the exact one, in terms of the markers at that moment, is in SearchMarkers.ListType.Integrate.
- StructMerge.MergeUpdates: works on the structs of one client; the source treats each client on its own.
- IdSets.Intersect: works on the ranges of one client, and stands for sets and for attributed maps, a set being ranges without attributes.
- Awareness.Awareness.ApplyUpdate: the equality with the plain merge supposes that no limit is set and that every entry is about another peer's client.
- Replication.Convergence: works on units and on a network that delivers each unit after those its writer had seen; that ygo's queue provides this order for whatever arrives is `Arrival.ArrivalOrderDoesNotMatter`.
- Document.Document.Integrate: takes an item as it is to be integrated; a known prefix and a deleted nested type are in `Document.Document.Arrive`.
- StructMerge.SliceHas: a struct here has a clock, values, origins, a parent and a key; collected structs have no form of their own.
- StructMerge.DiffUpdate: works on the structs of one client, of the same form.
