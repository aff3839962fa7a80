# Verified models of Pelikan's storage and hand-off code

This project models the parts of Pelikan that are hardest to get right by reading, and proves
what they promise over every input, every run or every interleaving.

- **The segment cache** (`SegItems`, `SegIndex`, `SegBuckets`, `SegLists`, `SegScan`, `SegHeap`,
  `HashTable`, `SegStore`, `SegCache`, `SegRun`, `SegLimits`, `TtlBuckets`). Items lie end to end in segments; segments are
  linked by TTL bucket or free; a hash index of bucket chains leads to items and may keep outdated
  entries behind the current one; segments leave by expiry or by being merged. `SegStore.World`
  is the invariant of index, memory and counters; `SegCache.Cache` is the code on top of it;
  `SegRun.Run` is any sequence of operations; `SegLimits` has runs that reach the code's limits.
- **The cuckoo store** (`Cuckoo`): four places per key, moves along a path that may repeat slots.
- **The ziplist** (`ZipEntry`, `Ziplist`): a list of values packed into bytes, walked from both ends.
- **The ring and the connection hand-off** (`Ring`, `Handoff`): two threads, every interleaving of
  their single steps.
- **The session** (`SessionBuffer`, `ServerSession`): a byte queue over memory that grows and
  shrinks, and the queue that tells when a response has left.
- **The file-backed pool** (`Datapool`): memory, storage and crashes.

How the models are built:

- Code that updates things in place is a class with methods; each method is proved against a
  function or relation on values, and lemmas about those carry the results. A segment's header
  fields are kept one sequence per field. Ghost parameters of methods (positions in lists, chains
  in scan order) are for the proof only.
- The segment cache is the release build without assertions. One operation is one step under its
  locks. Waiting for writers is a precondition that there are none. What the code decides by
  frequency, by chance or by a ranking is a parameter, so the results hold for any such decision.
- A segment's memory is a map from offsets to what a reader of an item header finds there. It is
  not cleared when a segment is recycled, as in the code.

Results that differ from what one would expect:

- A merge of m segments changes the free count by m - 2 if something is kept and by m - 1 if not
  (`SegCache.Cache.MergeRun`), and m is the least number that fills the merged segment to the
  required bytes (`SegStore.NeededIs`). So the free count falls just when the first segment alone
  fills it that far (`SegCache.Cache.FreeFalls`). Five sets from the constructor on do that
  (`SegLimits.Drain`), and then a sixth has no segment to merge into (`SegLimits.DrainAndSet`): the
  code would go on with segment -1. That happens just when none is free and the search meets
  a run of three before a bucket whose head is too old (`SegCache.Cache.SegGetNew`); if no head is
  too old, just when none is free and some list has three segments in a row that may be evicted
  at the age the last of nine searches requires (`SegScan.DrainedIff`).
- A reservation that needs a new segment finds it open just when the last flush lies in the past
  (`SegCache.Cache.ItemReserve`). In the second of a flush the code links a segment that is not
  open and goes round its loop (`SegLimits.FlushThenSet`), until it has linked every segment that is
  free beside the reserve, without an item in any of them (`SegCache.Cache.LoopOn`,
  `SegLimits.FlushAndLoop`).
- A bucket is found again by its own ttl, which list removal relies on, for every ttl from 0 up,
  and for a negative one just when it is not in one of two ranges (`TtlBuckets.StableIffUsed`). A
  segment of any other bucket is not unlinked from its own list (`SegHeap.UnlinkIffUsed`).
- The limit of a walk over a segment is an unsigned difference that wraps for an offset under 5.
  No linked segment has such an offset between operations (`SegCache.Cache.NoWrap`).
- In the cuckoo store's search for a slot the path has not been to, the inner loop skips nothing,
  so the first candidate is always taken and paths do repeat. Nothing is lost by that beyond the
  one item that may be evicted anyway.
- The cuckoo store's gauges count an item with expiry 0 for good, since its slot looks empty: they
  stay exact just when the capped expiry is above 0 (`Cuckoo.Store.Insert`, `Cuckoo.Store.Update`,
  `Cuckoo.StoreForNothing`). A string is read back just when its length is from 1 to 255
  (`Cuckoo.Stored`).
- A buffer over one mebibyte that is exactly full takes a mebibyte more when it is compacted
  (`SessionBuffer.KeptFits`, and `SessionBuffer.FillAndCompact` for one that does).
- A stream that fails after it has taken something and before it has taken everything leaves that
  unaccounted for in the queue of responses, and only such a one does
  (`ServerSession.Session.Flush`, `ServerSession.SendAndBreak`).
- A close of the pool that is cut off after its cleared mark has reached storage leaves a pool
  that opens as not fresh, with that close's bytes (`Datapool.CutOffClose`, and
  `Datapool.NotFreshIsClean` for what holds in general).
- The header comment of `ziplist_remove` says that a negative count deletes forward; the code
  removes the entries up to and including the index, and the model follows the code.

## Model

| member | source | states |
|---|---|---|
| SegItems.SizeFor | legacy/src/storage/seg/item.h:157-167 | an item's size is a multiple of 8 that holds header, key, optional data and value, and at least 16 for a non-empty key |
| SegItems.WalkReads | legacy/src/storage/seg/seg.c:324-372 | a walk that stands at a tile boundary before the limit finds a header there, and a cleared one exactly at the end of the items |
| SegItems.WalkStops | legacy/src/storage/seg/seg.c:324-372 | a walk that has passed the limit stands at the end of the items, whether or not a reservation that did not fit pushed the write offset past the segment |
| SegItems.LimitIs | legacy/src/storage/seg/seg.c:326-328 | in a segment with items the limit, which is an unsigned difference, does not wrap around |
| SegItems.WriteExtends | legacy/src/storage/seg/segmerge.c:466-485 | writing an item behind the others keeps the segment tiled and adds exactly its own start |
| SegIndex.InsertedFind | legacy/src/storage/seg/hashtable.c:334-431 | after an insert the first matching slot of the chain is the new item's, for every other key the find is unchanged |
| SegIndex.DeletedFind | legacy/src/storage/seg/hashtable.c:433-484 | after a delete no slot matches the key, other keys are unaffected |
| SegIndex.EvictedFind | legacy/src/storage/seg/hashtable.c:501-574 | evicting an item removes the key only if that item was its current one |
| SegIndex.RelinkedFind | legacy/src/storage/seg/hashtable.c:924-994 | relinking moves the key to the copy only if the copied item was its current one |
| SegIndex.BalancedFree | legacy/src/storage/seg/hashtable.c:192-217 | freeing an entry's item and emptying its slot keeps live counts and bytes equal to what the chain's entries weigh, segment by segment |
| SegBuckets.ScanStore | legacy/src/storage/seg/hashtable.c:350-431 | storing to a slot of a bucket is storing to its position in the chain's scan order |
| SegBuckets.ScanUnique | legacy/src/storage/seg/hashtable.c:350-431 | a bucket chain has one scan order |
| SegBuckets.ScanGrown | legacy/src/storage/seg/hashtable.c:411-421 | a new bucket, whose first item slot takes over the last one of the old bucket, keeps the scan order and adds seven positions |
| HashTable.Drop | legacy/src/storage/seg/hashtable.c:192-217 | emptying a slot of the bucket array and freeing its item keeps the array in scan order, and live counts, bytes and deleted bits in account with the slots lost since the operation began |
| HashTable.Put | legacy/src/storage/seg/hashtable.c:334-431 | the bucket loop leaves the chain with the item inserted as specified, and counters and deleted bits account exactly for the slots lost and gained |
| HashTable.Delete | legacy/src/storage/seg/hashtable.c:433-484 | every slot of the key is emptied and accounted for; the result tells if there was one |
| HashTable.Evict | legacy/src/storage/seg/hashtable.c:501-574 | the item's slot and all later ones of its key are emptied and accounted for |
| HashTable.Relink | legacy/src/storage/seg/hashtable.c:924-994 | the first slot of the key names the copy if it named the item; later ones of the key are emptied; all accounted for |
| HashTable.Get | legacy/src/storage/seg/hashtable.c:578-714 | the first matching slot decides, and is found just if its segment is open; only its frequency changes |
| SegLists.RemovedOk | legacy/src/storage/seg/seg.c:222-261 | unlinking a segment takes exactly it out of its bucket's list, links stay mutually inverse, counts stay list lengths, and the segment is held |
| SegLists.RemovedOnlyFromOwn | legacy/src/storage/seg/seg.c:222-261 | unlinking with the ends and count of some bucket leaves the lists without the segment just if it is the segment's own bucket |
| SegLists.FreedOk | legacy/src/storage/seg/seg.c:504-532 | a held segment becomes the head of the free list |
| SegLists.TakenOk | legacy/src/storage/seg/seg.c:460-498 | the head of the free list becomes held |
| SegLists.AppendedOk | legacy/src/storage/seg/ttlbucket.c:107-130 | a held segment becomes the last of its bucket's list |
| SegLists.ReplacedOk | legacy/src/storage/seg/segmerge.c:148-176 | a held segment takes another's place in its list, which is then held |
| SegLists.InOneListOnly | legacy/src/storage/seg/seg.c:222-261 | no segment is in two lists, twice in one, or in a list and free |
| SegLists.InSomeList | legacy/src/storage/seg/seg.c:460-532 | every segment that is not held is in a bucket's list or in the free list |
| SegHeap.SetupLinks | legacy/src/storage/seg/seg.c:619-653 | at first all segments are free, in order |
| SegHeap.Heap.RmSegFromTtlBucket | legacy/src/storage/seg/seg.c:222-261 | the code unlinks as specified, and finds the bucket by the segment's own ttl |
| SegHeap.UnlinkIffUsed | legacy/src/storage/seg/seg.c:222-261 | unlinking by the segment's ttl leaves the lists without it just if its bucket is one in use |
| SegHeap.Heap.SegAddToFreepool | legacy/src/storage/seg/seg.c:504-532 | the segment is the free list's head, closed and empty |
| SegHeap.Heap.SegGetFromFreepool | legacy/src/storage/seg/seg.c:460-498 | the free list's head, or none exactly when only the reserve is left and may not be used |
| SegHeap.Heap.SegInit | legacy/src/storage/seg/seg.c:174-220 | the held segment is reset, its memory is not |
| SegHeap.Heap.LinkLast | legacy/src/storage/seg/ttlbucket.c:107-130 | the segment is linked last and may be evicted |
| SegHeap.Heap.ReplaceSegInChain | legacy/src/storage/seg/segmerge.c:148-176 | the code relinks as specified |
| SegHeap.Heap.TakeForMerge | legacy/src/storage/seg/segmerge.c:540-551 | a fresh segment with the age and ttl of the first one to merge; all of the heap's invariant is kept |
| SegHeap.FindThree | legacy/src/storage/seg/segmerge.c:55-98 | the search that skips up to three segments finds what a plain scan for three evictable ones in a row finds, or nothing exactly when there are none |
| SegHeap.LockRun | legacy/src/storage/seg/segmerge.c:103-133 | exactly the segments from the start on are locked, as long as they may be evicted, at most the given number: the first one left out may not be, or the number is reached |
| SegScan.RunOfThree | legacy/src/storage/seg/segmerge.c:103-133 | where three in a row were found, at least three are locked, unless fewer may be |
| SegScan.ScanNothing | legacy/src/storage/seg/segmerge.c:216-299 | the search over all buckets finds nothing just if no bucket, from where it is begun there, has a run or a head that is too old, nor the first one again from its first segment |
| SegScan.InVain | legacy/src/storage/seg/segmerge.c:216-299 | after a search in vain no bucket has a run from where it was begun |
| SegScan.TriesIff | legacy/src/storage/seg/seg.c:540-577 | if no head is too old at any age, the nine searches, each with the age halved and begun at the heads after the first failure, find a run just if some list has three in a row at the last age, wherever the first search begins |
| SegScan.DrainedIff | legacy/src/storage/seg/segmerge.c:540-542 | and so a merge has no segment to copy to just if none is free and some list has such three |
| SegHeap.SurvivorsAlive | legacy/src/storage/seg/background.c:20-56 | in a list sorted by creation with one ttl, dropping the dead from the front leaves exactly those that are not dead |
| SegStore.SoundInsert | legacy/src/storage/seg/hashtable.c:334-431 | inserting a pending item keeps the whole invariant; the key then leads to it and no other lookup changes |
| SegStore.SoundDelete | legacy/src/storage/seg/hashtable.c:433-484 | deleting keeps the invariant; the key leads nowhere, no other lookup changes |
| SegStore.SoundEvict | legacy/src/storage/seg/hashtable.c:501-574 | evicting keeps the invariant; no slot names the item any more |
| SegStore.SoundRelink | legacy/src/storage/seg/segmerge.c:466-487 | relinking to a copy, which its segment then counts, keeps the invariant |
| SegStore.SoundRelinkStale | legacy/src/storage/seg/segmerge.c:466-487 | relinking an outdated item changes no lookup and keeps the invariant |
| SegStore.SoundKeeps | legacy/src/storage/seg/ttlbucket.c:67-75 | memory may change anywhere but in items that a slot or a writer refers to |
| SegStore.SoundDefine | legacy/src/storage/seg/item.c:73-118 | an item written and not yet inserted is counted by its segment |
| SegStore.CountedInsert | legacy/src/storage/seg/hashtable.c:384-400 | live counts and bytes stay the number and size of the entries into each segment plus the items not inserted yet, when an item is inserted, replaces another or leaves outdated ones behind |
| SegStore.CountedChain | legacy/src/storage/seg/hashtable.c:546-565 | the same when slots are emptied by a delete or an evict |
| SegStore.CountedRelink | legacy/src/storage/seg/segmerge.c:475-487 | the same when an entry is pointed to a copy, which its segment then counts |
| SegStore.CountedDefine | legacy/src/storage/seg/item.c:102-109 | the same when an item is written |
| SegStore.VacantIffZero | legacy/src/storage/seg/hashtable.c:192-217 | a segment's live count is zero exactly when nothing refers to it, and then its live bytes are, too |
| SegStore.FewBytesVacant | legacy/src/storage/seg/segmerge.c:602-619 | a merged segment with at most 8 live bytes holds no live item |
| SegStore.MarksStep | legacy/src/storage/seg/hashtable.c:192-217 | no slot ever names an item whose deleted bit is set, and no two slots name one item |
| SegStore.ReachStep | legacy/src/storage/seg/segmerge.c:426-487 | passing an item fills the merged segment further by its size just if it is current, to be kept and fits |
| SegStore.LevelsAre | legacy/src/storage/seg/segmerge.c:565-600 | each segment is copied from the level up to which those before it have filled the merged one |
| SegStore.NeededIs | legacy/src/storage/seg/segmerge.c:565-600 | how many segments a merge takes: those before which the level is below the required bytes |
| SegStore.NeededSame | legacy/src/storage/seg/segmerge.c:565-600 | that number and the level reached depend only on the segments' items and on which of them are current |
| SegStore.ProgressEvict | legacy/src/storage/seg/segmerge.c:426-463 | evicting the item the walk stands at keeps the account of what the merge makes of every key: the place of its copy, or none |
| SegStore.ProgressCopy | legacy/src/storage/seg/segmerge.c:466-490 | so does copying it |
| SegStore.ProgressLosesIn | legacy/src/storage/seg/segmerge.c:518-658 | after a merge every key that is found leads to equal bytes, on a segment of the same ttl that is no younger; keys not on merged segments are where they were |
| SegCache.Cache.constructor | legacy/src/storage/seg/hashtable.c:275-301 | the empty cache satisfies the invariant and finds no key |
| SegCache.Cache.HashtableEvict | legacy/src/storage/seg/hashtable.c:501-574 | evict on the table keeps the invariant and changes no lookup but that of the item's key |
| SegCache.Cache.ItemDelete | legacy/src/storage/seg/item.c:359-364 | a deleted key is not found, and the result tells if it was |
| SegCache.Cache.ItemInsert | legacy/src/storage/seg/item.c:121-149 | the item is what its key leads to from now on |
| SegCache.Cache.ItemGet | legacy/src/storage/seg/item.c:172-206 | the item last inserted under the key, or nothing; never an older one; nothing exactly if the key leads nowhere or to a closed segment |
| SegCache.Cache.EvictItems | legacy/src/storage/seg/seg.c:324-372 | the walk evicts exactly the items of the segment: afterwards nothing refers to it, and exactly the keys whose current item was on it are lost |
| SegCache.Cache.RmAllItemOnSeg | legacy/src/storage/seg/seg.c:280-432 | the same, with the segment unlinked; it fails, and changes nothing, just if the segment is locked |
| SegCache.Cache.ExpireSeg | legacy/src/storage/seg/seg.c:434-452 | an expired segment becomes free |
| SegCache.Cache.NoDangling | legacy/src/storage/seg/seg.c:280-432 | between operations every slot leads to a segment that is in a TTL bucket's list: none to a free or reused one |
| SegCache.Cache.NoWrap | legacy/src/storage/seg/seg.c:326-328 | between operations every linked segment has at least 16 bytes of items, so no walk's limit wraps |
| SegCache.Cache.CheckSegExpire | legacy/src/storage/seg/background.c:20-56 | one pass leaves no expired or flushed segment in any list, keeps every other one, and loses exactly the keys whose current item was on an expired one |
| SegCache.Cache.HashtableRelink | legacy/src/storage/seg/hashtable.c:924-994 | relink on the table: the key leads to the copy just if it led to the item, and nothing names the item any more |
| SegCache.Cache.CopyItem | legacy/src/storage/seg/segmerge.c:459-487 | an item copied behind those of the destination is part of it just if it was current |
| SegCache.Cache.SegCopy | legacy/src/storage/seg/segmerge.c:326-509 | after the copy nothing refers to the source segment; each of its keys leads to an equal copy at exactly the place that a greedy fill gives it, or is lost because it was not to be kept or did not fit there; the destination is not overrun |
| SegCache.Cache.MergeFirst | legacy/src/storage/seg/segmerge.c:565-588 | the first segment's place in the list goes to the merged one, and it is held |
| SegCache.Cache.MergeFurther | legacy/src/storage/seg/segmerge.c:565-600 | every further one is free again |
| SegCache.Cache.MergeAll | legacy/src/storage/seg/segmerge.c:565-600 | the loop merges exactly as many segments as are needed to reach the required bytes, or all |
| SegCache.Cache.MergeSegs | legacy/src/storage/seg/segmerge.c:518-658 | the whole merge: lists, free count, locks, how many segments are merged and how far the merged one is filled, when it is kept, what becomes of every key, and where the next merge is to begin; it has no segment to copy to just if none is free |
| SegCache.Cache.MergeRun | legacy/src/storage/seg/segmerge.c:280-292 | locking and merging a run: the number of segments merged is determined by the fill levels, the lists and free count by that number, keys on other segments are untouched; without a free segment nothing is lost |
| SegCache.Cache.FreeFalls | legacy/src/storage/seg/segmerge.c:540-619 | the free count falls by a merge just if the first segment alone fills the merged one to the required bytes, and never by more than one |
| SegCache.Cache.FindRun | legacy/src/storage/seg/segmerge.c:55-98 | the run found is the first one from the given segment on, or none just if there is none |
| SegCache.Cache.PrepSegToMerge | legacy/src/storage/seg/segmerge.c:103-146 | the locked segments are the longest run from the first on that may be evicted, up to the number allowed; at least three, or that number; the last of the list is not among them |
| SegCache.Cache.MergeEvict | legacy/src/storage/seg/segmerge.c:179-324 | which segment is freed up, or none, is what a search over the values gives; it has no segment to copy to just if none is free and the search meets a run first; in vain, nothing changes but the mature time, which is halved, and where searches begin; otherwise only keys on segments that may be evicted, or on one that is too old, are lost |
| SegCache.Cache.MergeIn | legacy/src/storage/seg/segmerge.c:239-298 | the same for one bucket: a run from where the bucket is begun, or a head that is too old, or nothing |
| SegCache.Cache.MergeRetry | legacy/src/storage/seg/seg.c:553-570 | the same for up to nine searches, each at half the age, with what is too old judged anew by that age |
| SegCache.Cache.SegGetNew | legacy/src/storage/seg/seg.c:540-582 | a new segment that nothing refers to, from the pool, a merge or a list; which of these, or none, or a merge without a segment to copy to, is determined by the state before; keys are lost only if the free pool beside the reserve was empty |
| SegCache.Cache.ItemReserve | legacy/src/storage/seg/item.c:221-299 | how a reservation ends, each way with its exact condition: refused for its size, no memory, no segment to merge into, a new segment that is not open, or the item is written where the bucket's last segment ends or at the beginning of a new one, in a bucket of the right ttl, and is pending; the lists and the free count after it; which keys may be lost |
| SegCache.Cache.BucketReserve | legacy/src/storage/seg/ttlbucket.c:25-168 | the same for one bucket and an item that fits into a segment |
| SegCache.Cache.ReserveNew | legacy/src/storage/seg/ttlbucket.c:62-151 | one turn of the loop: the segment it links is open just if the last flush lies in the past |
| SegCache.Cache.LoopOn | legacy/src/storage/seg/ttlbucket.c:62-151 | the turns after one that linked a segment which is not open, in the second of a flush: each segment free beside the reserve is linked, in order, with bytes reserved and none written, none of them is open, no other segment and no key is affected |
| SegCache.Cache.PutIn | legacy/src/storage/seg/ttlbucket.c:144-162 | room in an open segment is used; in one that is not open, the offset has moved on all the same and no item is disturbed |
| SegCache.Cache.RoomFor | legacy/src/storage/seg/ttlbucket.c:62-143 | without room in an open last segment that one is closed and a new, empty one is linked behind it, with the bucket's ttl; none just if there is none to be had |
| SegCache.Cache.CloseTail | legacy/src/storage/seg/ttlbucket.c:52-75 | a reservation that does not fit moves the offset past the end and clears the rest, and disturbs no item |
| SegCache.Cache.Place | legacy/src/storage/seg/item.c:30-118 | writing an item disturbs no other, and its segment counts it and its writer |
| SegRun.ReadHonest | legacy/src/storage/seg/hashtable.c:578-714 | a read that finds something finds the item last inserted under the key, not removed since nor flushed since it was reserved, no more than a second past its ttl; if no reservation since found the pool at its reserve, it finds that item just if its segment is open |
| SegRun.FollowsPlain | legacy/src/storage/seg/background.c:20-56 | expiry and passing time keep the accord, as only keys on closed segments are lost |
| SegRun.FollowsReserved | legacy/src/storage/seg/item.c:221-299 | so does a reservation with the merges it takes: one more item waits, and keys are lost only if the pool was at its reserve |
| SegRun.FollowsStored | legacy/src/storage/seg/item.c:121-149 | so does the insert of any item in waiting, in whatever order |
| SegRun.FollowsRemoved | legacy/src/storage/seg/item.c:359-364 | so does a delete |
| SegRun.FollowsFlushed | legacy/src/storage/seg/item.c:366-372 | so does a flush, after which nothing reserved before is read |
| SegRun.Elapsed | legacy/src/storage/seg/item.c:121-372 | only ticks move the clock, only flushes the time of the last flush, and events carry the time they happened at |
| SegRun.RunTimes | legacy/src/storage/seg/item.c:121-372 | at every moment of a run the clock is what it was at first plus the ticks so far, and the last flush is that of the events so far |
| SegRun.ReserveRoom | legacy/src/storage/seg/item.c:221-299 | on the state before: how a reservation ends, where its item is written, and which keys it may cost |
| SegRun.DoReserve | legacy/src/storage/seg/item.c:221-299 | a reservation in a run keeps the accord, and its event tells how it ended, with the exact condition of each ending: refused, stuck, looping, or the item with its place, the age of its segment and whether the pool was at its reserve when a segment was needed |
| SegRun.DoInsert | legacy/src/storage/seg/item.c:121-149 | the item of any earlier reservation is inserted, whatever came between: its key leads to its place, no other lookup changes |
| SegRun.DoGet | legacy/src/storage/seg/item.c:172-206 | a read of a key finds the item the key leads to, just if that one's segment is open, changes no lookup, and is honest, both when it finds something and when not |
| SegRun.DoDelete | legacy/src/storage/seg/item.c:359-364 | a delete tells if the key led anywhere; the key leads nowhere then, no other lookup changes |
| SegRun.DoExpire | legacy/src/storage/seg/background.c:20-56 | an expiry takes away exactly the keys on segments past their ttl by more than two seconds or older than the last flush, and keeps the accord |
| SegRun.DoFlush | legacy/src/storage/seg/item.c:366-372 | a flush closes every segment there is for readers, at once |
| SegRun.Step | legacy/src/storage/seg/item.c:121-372 | every operation does to the state what it is to do and its event tells of it (the relation `Did` of the states before and after), is honest, and keeps the invariant and the accord with the history, unless it is a reservation that gets stuck |
| SegRun.Run | legacy/src/storage/seg/item.c:121-372 | over whole runs of reserve, insert, get, delete, expire, flush and passing time, with any number of items reserved and not yet inserted: each event is that of its operation, by a chain of states from the one before the run to the one after it, at the time the ticks so far come to; every read finds what was last inserted, not removed, not flushed and not past its ttl, or nothing, and nothing only for a reason the run shows; a run ends early only with a reservation that gets stuck or an operation that is not possible |
| SegLimits.Drain | legacy/src/storage/seg/segmerge.c:540-619 | five sets from the constructor on leave no segment free |
| SegLimits.DrainAndSet | legacy/src/storage/seg/segmerge.c:540-542 | after which a sixth needs a segment, has none to merge into, and gets stuck |
| SegLimits.FlushThenSet | legacy/src/storage/seg/ttlbucket.c:62-151 | a set in the second of a flush links a segment that is not open, although others are free |
| SegLimits.FlushAndLoop | legacy/src/storage/seg/ttlbucket.c:62-151 | and goes on until four segments are linked that hold no item and only the reserve is free |
| TtlBuckets.OwnTtlFindsBucket | legacy/src/storage/seg/seg.c:225-227 | looking a bucket up by its own ttl finds it exactly for the buckets in use |
| TtlBuckets.StableIffUsed | legacy/src/storage/seg/ttlbucket.h:120-149 | a ttl leads to a bucket in use exactly if it is not in one of two negative ranges |
| TtlBuckets.UnstableExample | legacy/src/storage/seg/ttlbucket.h:120-149 | a negative ttl that leads to a bucket which its own ttl does not lead back to |
| TtlBuckets.Monotone | legacy/src/storage/seg/ttlbucket.h:120-149 | the bucket index is monotone in the ttl |
| TtlBuckets.Precision | legacy/src/storage/seg/ttlbucket.c:275-281 | a bucket's ttl is at most one more than an item's, and falls short of it by less than 8 or a sixteenth |
| Cuckoo.LookupIs | legacy/src/storage/cuckoo/cuckoo.c:331-355 | with unique keys a lookup of the whole table has one answer |
| Cuckoo.Later | legacy/src/storage/cuckoo/item.h:132-152 | time only makes items expire |
| Cuckoo.Stored | legacy/src/storage/cuckoo/item.h:217-232 | a value is read back as it was written just if it is a number or a string of 1 to 255 bytes |
| Cuckoo.MovedSource | legacy/src/storage/cuckoo/cuckoo.c:255-264 | which item each slot holds after the moves, also when the path repeats slots: each is where it was or in another of its key's places |
| Cuckoo.MovedKeeps | legacy/src/storage/cuckoo/cuckoo.c:175-265 | the moves keep every live item in one of its places and keys unique, and lose only the item in the path's last slot |
| Cuckoo.MovedTotal | legacy/src/storage/cuckoo/cuckoo.c:247-264 | the moves take off the gauges exactly what the last slot counted for, also when the path repeats slots |
| Cuckoo.StoreKeeps | legacy/src/storage/cuckoo/cuckoo.c:371-405 | storing a new key to a free place keeps placement and uniqueness and changes no other lookup; the key is found just if its item is not past its expiry |
| Cuckoo.RewriteKeeps | legacy/src/storage/cuckoo/cuckoo.c:410-457 | so does rewriting or clearing a slot |
| Cuckoo.SortByExpiry | legacy/src/storage/cuckoo/cuckoo.c:147-169 | the insertion sort gives a permutation of the places, in order of expiry |
| Cuckoo.Store.Get | legacy/src/storage/cuckoo/cuckoo.c:331-355 | looking at four slots finds whatever the whole table has under the key |
| Cuckoo.Store.SelectCandidate | legacy/src/storage/cuckoo/cuckoo.c:103-132 | one of the places, by expiry one that expires first |
| Cuckoo.Store.SortCandidate | legacy/src/storage/cuckoo/cuckoo.c:134-173 | a permutation of the places, by policy in order of expiry |
| Cuckoo.Store.FindPath | legacy/src/storage/cuckoo/cuckoo.c:189-245 | the path leads over live items to the first free place of the last one, or to a live item only if none of those moved had a free place |
| Cuckoo.Store.MoveAlong | legacy/src/storage/cuckoo/cuckoo.c:255-264 | the copy loop does the moves as specified |
| Cuckoo.Store.Displace | legacy/src/storage/cuckoo/cuckoo.c:175-265 | the slot is free, at most one key is lost, gauges stay exact |
| Cuckoo.Store.Insert | legacy/src/storage/cuckoo/cuckoo.c:357-408 | the new key is found, with its value as stored and capped expiry, unless that expiry is past; no other key changes but at most one, lost just when no free slot was reached; gauges stay as exact as they were just if the capped expiry is above 0 |
| Cuckoo.Store.Update | legacy/src/storage/cuckoo/cuckoo.c:410-431 | only the key's value, expiry and cas change, unless the value is too large; a past expiry makes the key not found; gauges stay as exact as they were just if the capped expiry is above 0 |
| Cuckoo.Store.Delete | legacy/src/storage/cuckoo/cuckoo.c:433-457 | the key is gone, no other changes; gauges stay exact |
| Cuckoo.StoreForNothing | legacy/src/storage/cuckoo/cuckoo.c:402-405 | an item stored with expiry 0 is never found and is counted for good |
| ZipEntry.LittleEndian | legacy/src/data_structure/ziplist/ziplist.c:53-69 | numbers are read back from their bytes |
| ZipEntry.RoundTrip | legacy/src/data_structure/ziplist/ziplist.c:104-150 | an entry is read back as written, and its first bytes tell its length, whatever follows |
| ZipEntry.PrefixFree | legacy/src/data_structure/ziplist/ziplist.c:122-150 | no entry is the beginning of another |
| ZipEntry.Injective | legacy/src/data_structure/ziplist/ziplist.c:122-150 | different values have different encodings |
| ZipEntry.TruncatedMatch | legacy/src/data_structure/ziplist/ziplist.c:300-313 | comparing encoded bytes, no further than the list goes, matches exactly equal values |
| ZipEntry.CompareIsBefore | legacy/src/data_structure/shared.h:27-51 | strings compare in dictionary order |
| ZipEntry.CompareOrders | legacy/src/data_structure/shared.h:27-51 | comparing values is a total order in which only equal values compare as equal |
| Ziplist.EncEntry | legacy/src/data_structure/ziplist/ziplist.c:233-251 | the entry of an index lies between its offset and the next one's |
| Ziplist.List.FromLeft | legacy/src/data_structure/ziplist/ziplist.c:233-241 | walking from the front reaches the entry of the index |
| Ziplist.List.FromRight | legacy/src/data_structure/ziplist/ziplist.c:243-251 | walking from the end by the length bytes reaches the same entry |
| Ziplist.List.Locate | legacy/src/data_structure/ziplist/ziplist.c:253-280 | either way, for every index, negative ones too, or out of bounds |
| Ziplist.List.Get | legacy/src/data_structure/ziplist/ziplist.c:104-120 | the value of the entry of an index |
| Ziplist.List.Find | legacy/src/data_structure/ziplist/ziplist.c:282-326 | the first index with the value, exactly if there is one |
| Ziplist.List.Insert | legacy/src/data_structure/ziplist/ziplist.c:442-476 | on the bytes: the value is inserted before the index, all others stay |
| Ziplist.List.Push | legacy/src/data_structure/ziplist/ziplist.c:551-569 | the value is appended |
| Ziplist.List.Pop | legacy/src/data_structure/ziplist/ziplist.c:571-594 | the last value is taken off |
| Ziplist.List.Remove | legacy/src/data_structure/ziplist/ziplist.c:399-429 | the entries from the index on, or up to it for a negative count, are removed, or out of bounds |
| Ziplist.List.Truncate | legacy/src/data_structure/ziplist/ziplist.c:517-549 | entries are removed from the front or the end |
| Ziplist.List.Trim | legacy/src/data_structure/ziplist/ziplist.c:478-515 | what is kept from the index on, or before it for a count that is not positive |
| Ziplist.List.Reset | legacy/src/data_structure/ziplist/ziplist.c:184-195 | the list is empty |
| Ring.NElemIs | legacy/deps/ccommon/src/cc_ring_array.c:73-81 | the occupied slots counted from wrapped positions are the elements between the counters |
| Ring.WriteKeeps | legacy/deps/ccommon/src/cc_ring_array.c:84-94 | the slot the producer writes is not an occupied one, whatever the consumer does meanwhile |
| Ring.NextKeeps | legacy/deps/ccommon/src/cc_ring_array.c:84-149 | every step of either thread keeps the ring's invariant |
| Ring.NoRace | legacy/deps/ccommon/src/cc_ring_array.c:73-149 | in every interleaving occupancy stays within the capacity, and no slot is about to be written and read at once |
| Ring.Fifo | legacy/deps/ccommon/src/cc_ring_array.c:116-134 | in every interleaving, with flushes, what is read is what was pushed at that place |
| Ring.PoppedPrefix | legacy/deps/ccommon/src/cc_ring_array.c:84-134 | without a flush, what was popped is a beginning of what was pushed, and the ring holds the rest |
| Ring.RingArray.Push | legacy/deps/ccommon/src/cc_ring_array.c:84-100 | appends unless full |
| Ring.RingArray.Pop | legacy/deps/ccommon/src/cc_ring_array.c:116-134 | takes the oldest unless empty |
| Ring.RingArray.Flush | legacy/deps/ccommon/src/cc_ring_array.c:145-149 | drops everything |
| Handoff.NeverMissing | legacy/src/core/data/worker.c:133-142 | a reader with notifications left never finds the ring empty |
| Handoff.NeverBlocks | legacy/src/core/data/server.c:65-94 | a pipe that holds 1024 bytes has room for every notification |
| Handoff.PushKeeps | legacy/src/core/data/server.c:197-207 | pushing and notifying keep pipe bytes, the reader's count and the notification owed equal to the ring's occupancy |
| Handoff.PopKeeps | legacy/src/core/data/worker.c:98-150 | so do receiving and popping |
| Handoff.StepKeeps | legacy/src/core/data/worker.c:98-208 | every step of either thread keeps this, and every connection in exactly one place |
| Handoff.RunSafe | legacy/src/core/data/server.c:96-210 | in every state of every interleaving each connection is in exactly one place, none is missing, and no notification blocks |
| SessionBuffer.NextPow2Least | src/session/src/buffer.rs:32-32 | the next power of two is the least one that suffices |
| SessionBuffer.KeptFits | src/session/src/buffer.rs:144-155 | compacting takes no more memory than there was, exactly unless the buffer is over a mebibyte and full |
| SessionBuffer.FillAndCompact | src/session/src/buffer.rs:114-156 | a buffer filled to its two mebibytes has three after it is compacted |
| SessionBuffer.Buffer.Reserve | src/session/src/buffer.rs:56-92 | room for the bytes asked for, and the readable bytes stay the same |
| SessionBuffer.Buffer.Clear | src/session/src/buffer.rs:95-109 | the buffer is empty and at most of its target size |
| SessionBuffer.Buffer.Compact | src/session/src/buffer.rs:114-156 | the readable bytes stay the same; capacities are powers of two up to a mebibyte and whole mebibytes above; the gauge of buffer bytes stays exact |
| SessionBuffer.Buffer.Advance | src/session/src/buffer.rs:200-203 | takes bytes off the front |
| SessionBuffer.Buffer.AdvanceMut | src/session/src/buffer.rs:211-213 | counts bytes written behind the end, up to the capacity |
| SessionBuffer.Buffer.PutSlice | src/session/src/buffer.rs:233-242 | appends the bytes |
| ServerSession.WholeIs | src/session/src/server.rs:120-138 | a response has left exactly when its last byte has |
| ServerSession.RestSum | src/session/src/server.rs:113-139 | what is left of the queue is what was there less the bytes that left |
| ServerSession.Portions | src/session/src/server.rs:113-139 | bytes that leave in two portions leave, and are recorded, as in one |
| ServerSession.LeftIs | src/session/src/server.rs:120-138 | the times recorded are those of the responses that left, in order |
| ServerSession.Drain | src/session/src/server.rs:120-138 | the loop takes the bytes off the queue as specified |
| ServerSession.Session.QueueMatches | src/session/src/server.rs:141-154 | the queue's sizes add up to the bytes pending exactly when all that left was accounted for |
| ServerSession.Session.Send | src/session/src/server.rs:88-109 | the response's bytes are pending and queued under the oldest request's time; an empty one is recorded at once |
| ServerSession.Session.AdvanceWrite | src/session/src/server.rs:113-139 | each response is recorded once, in order, when its last byte is accounted for |
| ServerSession.Session.FlushBuffer | src/session/src/lib.rs:192-226 | the stream gets as many of the pending bytes as it offers to take before it blocks or fails, the rest stays pending, and the outcome is what the stream's answers say |
| ServerSession.Session.Flush | src/session/src/server.rs:144-154 | what left is accounted for unless the stream fails before it has taken everything; the queue stays in step with what left just if it does not do so after taking something |
| ServerSession.BreakExample | src/session/src/lib.rs:192-226 | a stream that takes one of two bytes and then fails |
| ServerSession.SendAndBreak | src/session/src/server.rs:144-154 | a session that gets out of step by it |
| Datapool.Pool.Initialize | legacy/src/datapool/datapool_pmem.c:122-141 | a fresh header, in memory and on storage |
| Datapool.Pool.Open | legacy/src/datapool/datapool_pmem.c:164-246 | fresh exactly if the header was not valid; refused exactly for another owner; otherwise marked dirty on storage |
| Datapool.Pool.Close | legacy/src/datapool/datapool_pmem.c:248-262 | storage has what memory has, with the mark cleared |
| Datapool.StepKeeps | legacy/src/datapool/datapool_pmem.c:143-262 | every step, also a write-back at any time and a crash, keeps what marks and bytes say about each other |
| Datapool.CrashIsNoticed | legacy/src/datapool/datapool_pmem.c:83-120 | after a crash before the mark is cleared the pool is not valid |
| Datapool.CloseIsThreeSteps | legacy/src/datapool/datapool_pmem.c:248-262 | a close that is not cut off is the three steps of a run |
| Datapool.NotFreshIsClean | legacy/src/datapool/datapool_pmem.c:220-233 | over every run with crashes, an open that is not fresh finds exactly what was stored when a close last cleared the mark, and that is the last completed close unless that close was cut off |
| Datapool.CutOffClose | legacy/src/datapool/datapool_pmem.c:248-262 | a run in which a close is cut off and the next open is not fresh although no close was completed |

## Left out

- How a slot fits into 64 bits, the frequency counter's smoothing, cas values, and the 8-bit length of a bucket chain: slots are records, a hit's new frequency is a parameter, chains have any length.
- Reader counts, races between threads within one operation, and the second walk of `rm_all_item_on_seg` for slow writers: operations are atomic and no writer is under way on a segment that is removed.
- `item_incr`, `item_decr` and values that are written after the reservation: items are written whole.
- Eviction by ranking (`seg_evict`, `least_valuable_seg`): it only chooses the victim of `rm_all_item_on_seg`, which is modelled for any victim.
- The frequency cutoff of `seg_copy`: a parameter says which items are to be kept, so the results hold for every cutoff.
- SegCache.Cache.ItemReserve: requires that the item is too large, or that its ttl leads to a bucket that can be found again, which is exact by TtlBuckets.StableIffUsed and SegHeap.UnlinkIffUsed. What the code does with segment -1 after a merge without a segment to copy to, and turns of the loop in the second of a flush once only the reserve is free, are not modelled: the model stops there and says so.
- SegCache.Cache.MergeEvict: requires no writers on segments that are too old; the statistics that call a segment too old are a parameter, which may depend on the age that a search requires.
- SegCache.Cache.SegGetNew: requires no writers on segments that are too old.
- Cuckoo.Store.Insert: requires a key that is not in the table (cuckoo.c:357), of at most 255 bytes, since its length is kept in one byte; a value that is not stored whole is modelled by Cuckoo.Stored. Displacement bounds other than 2 are not modelled.
- Cuckoo.Store.Update: requires an item that is not past its expiry, as its callers have just looked it up.
- The ziplist's header as bytes, `ziplist_remove_val`, and `ziplist_prev` and `ziplist_next`: the two header fields are fields of the list.
- The retry path of a notification that would block, and the eventfd variant: Handoff.NeverBlocks shows that a pipe of 1024 bytes does not block.
- Relaxed memory ordering in the ring: steps of the two threads are interleaved.
- The read side of a session (`fill`, parsing) beyond the buffer it uses, and clocks: times are parameters.
- Crashes inside the opening of a pool, and pools opened with different sizes: the size is fixed.
- Sockets, event loops, options, logging, slab storage and the other servers.
