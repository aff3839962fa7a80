/**
 * The segment cache: items are written to the tail segment of their TTL bucket, found through
 * the hash index, and go with their segments when these expire or are merged.
 */
module SegCache {
  import opened Basics
  import opened SegItems
  import opened SegIndex
  import opened SegBuckets
  import opened SegLists
  import opened SegScan
  import opened SegHeap
  import opened SegStore
  import opened TtlBuckets
  import HashTable

  class Cache {
    const heap: Heap
    const hs: Hashing
    /** A merge stops copying once the merged segment holds this many bytes. */
    const stopBytes: int
    const nMaxMerge: nat

    var table: seq<seq<Bucket>>
    /** Where the next merge in each TTL bucket begins; it may have gone stale since it was set. */
    var nextToMerge: seq<int>

    ghost var chains: seq<Chain>
    ghost var pending: Chain
    ghost var newest: map<Key, Item>

    ghost function W(): (w: World)
      reads `chains, `pending, `newest, heap
    {
      World(heap.cells, heap.ends, hs, chains, pending, heap.nLive, heap.liveBytes, heap.wref, newest,
            heap.createAt, heap.ttl)
    }

    ghost predicate TableOk()
      reads `table, `chains
    {
      TableScans(table, chains)
    }

    ghost predicate IndexOk()
      reads `table, `chains, `pending, `newest, heap
    {
      heap.Shaped() && TableOk() && W().Sound() && MarksOk(chains, pending, heap.deleted)
    }

    /** What holds between operations. */
    ghost predicate Valid()
      reads this, heap
    {
      heap.FilledBut(-1) && Orderly()
    }

    /** The same, but a linked segment may still be without items. */
    ghost predicate Orderly()
      reads this, heap
    {
      heap.Quiet() && IndexOk() && stopBytes > 0 && nMaxMerge > 0 && InRange1(nextToMerge, heap.n)
    }

    /** The same while an operation holds segment h, which nothing refers to. */
    ghost predicate ValidBut(h: int)
      reads this, heap
    {
      && heap.QuietBut(h) && IndexOk() && stopBytes > 0 && nMaxMerge > 0 && InRange1(nextToMerge, heap.n)
      && 0 <= h < heap.n && Vacant(W(), h) && heap.FilledBut(-1)
    }

    constructor (heap: Heap, hs: Hashing, stopBytes: int, nMaxMerge: nat, nBucket: nat)
      requires nBucket > 0 && stopBytes > 0 && nMaxMerge > 0 && heap.Quiet() && heap.FilledBut(-1)
      requires forall s :: 0 <= s < heap.n ==> heap.nLive[s] == 0 && heap.liveBytes[s] == 0 && heap.wref[s] == 0
      ensures this.heap == heap && this.hs == hs && this.stopBytes == stopBytes && this.nMaxMerge == nMaxMerge
      ensures Valid() && |table| == nBucket && pending == [] && forall k :: W().Look(k) == None
    {
      this.heap, this.hs, this.stopBytes, this.nMaxMerge := heap, hs, stopBytes, nMaxMerge;
      var bucket := [Stat, Empty, Empty, Empty, Empty, Empty, Empty, Empty];
      table := seq(nBucket, _ => [bucket]);
      chains := seq(nBucket, _ => [Empty, Empty, Empty, Empty, Empty, Empty, Empty]);
      pending, newest := [], map[];
      nextToMerge := seq(N_BUCKET, _ => -1);
      new;
      assert Scans([bucket], [Empty, Empty, Empty, Empty, Empty, Empty, Empty]);
      SoundEmpty(W());
    }

    /** A chain as the bucket operations need it. */
    lemma ChainOf(key: Key) returns (b: nat)
      requires IndexOk()
      ensures b == BucketFor(hs, |table|, key) && b < |table| == |chains|
      ensures Scans(table[b], chains[b]) && Backed(heap.cells, chains[b]) && chains[b] + [] == chains[b]
      ensures |heap.nLive| == |heap.liveBytes| == |heap.cells|
      ensures W().Sound() && heap.Shaped()
    {
      b := BucketFor(hs, |table|, key);
      SoundChain(W(), b);
    }

    /** A bucket chain takes over from another, and the store is sound again. */
    method SetChain(b: nat, raw: seq<Bucket>, ghost c': Chain, ghost w': World)
      requires heap.Shaped() && TableOk() && b < |table| && Scans(raw, c')
      requires w' == W().(t := chains[b := c']) && w'.Sound() && MarksOk(w'.t, pending, heap.deleted)
      modifies `table, `chains
      ensures IndexOk() && W() == w' && chains == old(chains)[b := c']
    {
      hide World.Sound, Scans, MarksOk, TableScans;
      TableStore(table, chains, b, raw, c');
      table := table[b := raw];
      chains := chains[b := c'];
      assert W() == w';
    }

    /** Remove an item from the index, and the stale entries of its key with it. */
    method HashtableEvict(key: Key, l: Loc) returns (found: bool)
      requires IndexOk() && InMem(heap.cells, l) && ItemAt(heap.cells, l).key == key
      modifies `table, `chains, heap`nLive, heap`liveBytes, heap`deleted
      ensures IndexOk() && Sub(chains, old(chains)) && Unnamed(chains, l)
      ensures forall k :: W().Look(k) == if k == key && old(W()).Look(key) == Some(l) then None else old(W()).Look(k)
    {
      hide World.Sound, World.Look, Scans, Balanced, Dropped, Unnamed, Sub, MarksOk, Backed, Evicted, TableScans;
      ghost var w := W();
      ghost var b0 := ChainOf(key);
      var b := BucketFor(hs, |table|, key);
      ghost var c := chains[b];
      var raw;
      raw, found := HashTable.Evict(heap, table[b], c, key, hs.g(key), l);
      ghost var c' := Evicted(heap.cells, key, hs.g(key), c, l);
      SoundEvict(w, key, l, b, c', heap.nLive, heap.liveBytes);
      ShrinksOnce(heap.cells, key, hs.g(key), c, l);
      MarksStep(w, old(heap.deleted), b, c', Empty, |c|, pending);
      SetChain(b, raw, c', w.(t := chains[b := c'], live := heap.nLive, bytes := heap.liveBytes));
    }

    /** Remove a key: no version of it is found afterwards. */
    method ItemDelete(key: Key) returns (found: bool)
      requires IndexOk()
      modifies `table, `chains, `newest, heap`nLive, heap`liveBytes, heap`deleted
      ensures IndexOk() && newest == old(newest) - {key}
      ensures found <==> old(W()).Look(key).Some?
      ensures forall k :: W().Look(k) == if k == key then None else old(W()).Look(k)
    {
      hide World.Sound, Scans, Balanced, Dropped, Unnamed, Sub, MarksOk, Backed, Deleted, TableScans;
      ghost var w := W();
      ghost var b0 := ChainOf(key);
      var b := BucketFor(hs, |table|, key);
      ghost var c := chains[b];
      var raw;
      raw, found := HashTable.Delete(heap, table[b], c, key, hs.g(key));
      ghost var c' := Deleted(heap.cells, key, hs.g(key), c);
      SoundDelete(w, key, b, c', heap.nLive, heap.liveBytes);
      ShrinksOnce(heap.cells, key, hs.g(key), c, Loc(0, 0));
      MarksStep(w, old(heap.deleted), b, c', Empty, |c|, pending);
      newest := newest - {key};
      SetChain(b, raw, c', w.(t := chains[b := c'], live := heap.nLive, bytes := heap.liveBytes, newest := newest));
    }

    /** The new entry, in the table. */
    method PutSlot(b: nat, ghost c: Chain, key: Key, l: Loc) returns (raw: seq<Bucket>)
      requires heap.Shaped() && b < |table| && InMem(heap.cells, l) && Scans(table[b], c) && Backed(heap.cells, c)
      requires forall i :: 0 <= i < |c| && c[i].Entry? ==> c[i].loc != l
      modifies heap`nLive, heap`liveBytes, heap`deleted
      ensures heap.Shaped()
      ensures var c' := Inserted(heap.cells, key, hs.g(key), c, l);
              var x := Entry(hs.g(key), 0, l);
              && Scans(raw, c') && Backed(heap.cells, c + [x]) && Backed(heap.cells, c')
              && Balanced(heap.cells, c + [x], old(heap.nLive), old(heap.liveBytes), c', heap.nLive, heap.liveBytes)
              && |c| <= |c'| && heap.deleted == old(heap.deleted) + Dropped(c, c')
    {
      hide Scans, BalancedFor, Dropped, Backed, Inserted;
      raw := HashTable.Put(heap, table[b], c, key, hs.g(key), l);
    }

    /** Insert a pending item: it is what its key leads to from now on. */
    method ItemInsert(l: Loc, ghost i: nat)
      requires IndexOk() && i < |pending| && pending[i].Entry? && pending[i].loc == l && InMem(heap.cells, l)
      modifies `table, `chains, `newest, `pending, heap`nLive, heap`liveBytes, heap`deleted, heap`wref
      ensures IndexOk() && pending == old(pending)[i := Empty]
      ensures newest == old(newest)[ItemAt(heap.cells, l).key := ItemAt(heap.cells, l)]
      ensures forall k :: W().Look(k) == if k == ItemAt(heap.cells, l).key then Some(l) else old(W()).Look(k)
    {
      hide World.Sound, World.Look, Scans, Balanced, Dropped, Unnamed, MarksOk, Backed, Inserted, TableScans,
        BucketFor;
      ghost var w := W();
      var key := ItemAt(heap.cells, l).key;
      ghost var b0 := ChainOf(key);
      var b := BucketFor(hs, |table|, key);
      ghost var c := chains[b];
      InsertReady(w, b, i, c, table[b], heap.deleted);
      var raw := PutSlot(b, c, key, l);
      heap.wref := heap.wref[l.seg := heap.wref[l.seg] - 1];
      ghost var c' := Inserted(heap.cells, key, hs.g(key), c, l);
      ghost var w' := InsertWorld(w, old(heap.deleted), key, i, b, c', heap.nLive, heap.liveBytes, heap.wref);
      pending := pending[i := Empty];
      newest := newest[key := ItemAt(heap.cells, l)];
      SetChain(b, raw, c', w');
    }

    /** The newest version of a key, or nothing; never an older one. */
    method ItemGet(key: Key, freq: nat) returns (r: Option<Item>)
      requires IndexOk()
      modifies `table, `chains
      ensures IndexOk() && forall k :: W().Look(k) == old(W()).Look(k)
      ensures r.Some? ==> key in newest && r.value == newest[key]
      ensures r.Some? ==> W().Look(key).Some? && r.value == ItemAt(heap.cells, W().Look(key).value)
      ensures r.Some? <==> W().Look(key).Some? && heap.SegIsAccessible(W().Look(key).value.seg)
    {
      hide Scans, Balanced, Dropped, Unnamed, Sub, MarksOk, Backed, SameButFreq, PendingOk, Counted, WritersOk,
        TableScans;
      ghost var w := W();
      ghost var b0 := ChainOf(key);
      var b := BucketFor(hs, |table|, key);
      var raw, l;
      ghost var c';
      raw, l, c' := HashTable.Get(heap, table[b], chains[b], key, hs.g(key), freq);
      SoundGet(w, b, c');
      MarksSame(chains, pending, heap.deleted, b, c');
      assert Find(heap.cells, key, hs.g(key), chains[b]) == w.Look(key);
      SetChain(b, raw, c', w.(t := chains[b := c']));
      r := if l.None? then None else Some(ItemAt(heap.cells, l.value));
    }

    /**
     * Evict the items of a segment one by one. The walk reads a header, evicts that item and
     * steps by its size, so it must come upon exactly the items written; afterwards nothing
     * refers to the segment, and only keys whose current item was on it are gone.
     */
    method EvictItems(s: nat)
      requires IndexOk() && s < heap.n && heap.wref[s] == 0
      requires SegTiled(heap.cells[s], heap.segSize, heap.writeOffset[s], heap.ends[s])
      modifies `table, `chains, heap`nLive, heap`liveBytes, heap`deleted
      ensures IndexOk() && Vacant(W(), s) && LostAll(old(W()), W(), s)
    {
      hide World.Sound, World.Look, IndexOk, Vacant, SegTiled, Evicting, LostAll;
      IndexSound();
      ghost var w, wo := W(), heap.writeOffset[s];
      EvictBegins(s);
      var limit := Limit(heap.writeOffset[s], heap.segSize);
      var curr: nat, more := 0, true;
      while curr < limit && more
        invariant Evicting(w, s, curr) && |heap.nLive| == |heap.cells| == heap.n
        invariant more || heap.nLive[s] == 0 || (curr in heap.cells[s] && heap.cells[s][curr].Zero?)
        decreases limit - curr, more
      {
        curr, more := EvictStep(s, curr, w, wo);
      }
      EvictEnds(w, s, curr, wo);
    }

    /** The items of segment s before offset a have been evicted, since w. */
    ghost predicate Evicting(w: World, s: nat, a: nat)
      reads this, heap
    {
      w.Sound() && IndexOk() && s < heap.n && LostOnly(w, W(), s) && Ahead(W(), s, a)
    }

    lemma EvictBegins(s: nat)
      requires IndexOk() && s < heap.n && SegTiled(heap.cells[s], heap.segSize, heap.writeOffset[s], heap.ends[s])
      ensures heap.Shaped() && W().Sound() && Evicting(W(), s, 0)
    {
      hide World.Sound, World.Look, TableOk, MarksOk, SegTiled;
      TiledStart(W(), s, heap.segSize, heap.writeOffset[s]);
      LostOnlySelf(W(), s);
    }

    lemma EvictEnds(w: World, s: nat, a: nat, wo: int)
      requires Evicting(w, s, a) && heap.wref[s] == 0 && SegTiled(heap.cells[s], heap.segSize, wo, heap.ends[s])
      requires heap.nLive[s] == 0 || (a in heap.cells[s] && heap.cells[s][a].Zero?) || a >= Limit(wo, heap.segSize)
      ensures IndexOk() && w.Sound() && W().Sound() && Vacant(W(), s) && LostAll(w, W(), s)
    {
      hide World.Sound, World.Look, TableOk, MarksOk, SegTiled, Vacant, Ahead, LostOnly, LostAll;
      WalkDone(W(), s, a, heap.segSize, wo);
      LostVacant(w, W(), s);
    }

    /** Read the header the walk stands at; unless nothing is left, evict the item and go on. */
    method EvictStep(s: nat, curr: nat, ghost w: World, ghost wo: int) returns (curr': nat, more: bool)
      requires Evicting(w, s, curr) && curr < Limit(wo, heap.segSize)
      requires SegTiled(heap.cells[s], heap.segSize, wo, heap.ends[s])
      modifies `table, `chains, heap`nLive, heap`liveBytes, heap`deleted
      ensures Evicting(w, s, curr') && |heap.nLive| == |heap.cells| == heap.n
      ensures more ==> curr' > curr
      ensures !more ==> curr' == curr && (heap.nLive[s] == 0 || (curr in heap.cells[s] && heap.cells[s][curr].Zero?))
    {
      hide World.Sound, World.Look, TableOk, MarksOk, Unnamed, Sub, Tiles, SegTiled, Ahead, LostOnly, Inherits;
      if heap.nLive[s] == 0 {
        return curr, false;
      }
      ghost var w1 := W();
      AheadTiles(w1, s, curr);
      CountedFilled(w1, s);
      WalkReads(heap.cells[s], heap.segSize, wo, heap.ends[s], curr);
      if heap.cells[s][curr].Zero? {
        return curr, false;
      }
      var it := heap.cells[s][curr].item;
      WalkItem(heap.cells[s], curr, heap.ends[s]);
      var found := HashtableEvict(it.key, Loc(s, curr));
      LostMore(w, w1, W(), s, it.key, Loc(s, curr));
      SubInherits(chains, w1.t, s + 1);
      AheadStep(w1, W(), s, curr, s + 1);
      curr', more := curr + ItemSize(it), true;
    }

    /**
     * Unlink a segment and evict everything on it; it is then held by the caller. Fails, and
     * changes nothing, if the segment is already being removed. Writers are waited for, so
     * there are none; `forced` is set for the tail of a list.
     */
    method RmAllItemOnSeg(s: nat, forced: bool, ghost i: nat) returns (ok: bool)
      requires IndexOk() && heap.Inv() && s < heap.n && heap.wref[s] == 0 && heap.lists.owner[s] >= 0
      requires i < |heap.lists.chains[heap.lists.owner[s]]| && heap.lists.chains[heap.lists.owner[s]][i] == s
      requires forced || heap.links.next[s] != -1
      modifies `table, `chains, heap`nLive, heap`liveBytes, heap`deleted
      modifies heap`links, heap`lists, heap`accessible, heap`evictable
      ensures IndexOk() && heap.Inv() && ok == old(heap.evictable[s]) && heap.links.nFree == old(heap.links.nFree)
      ensures !ok ==> heap.lists == old(heap.lists) && heap.accessible == old(heap.accessible)
      ensures !ok ==> heap.evictable == old(heap.evictable) && W() == old(W())
      ensures ok ==> heap.lists == RemovedAt(old(heap.lists), old(heap.lists.owner[s]), i)
      ensures ok ==> Vacant(W(), s) && LostAll(old(W()), W(), s)
      ensures ok ==> heap.evictable == old(heap.evictable)[s := false]
      ensures ok ==> heap.accessible == old(heap.accessible)[s := false]
    {
      hide World.Sound, World.Look, MarksOk, TableOk, Vacant, SegTiled, ListsOk, SortedAlong, Heap.Sorted, Heap.TtlOk;
      if !heap.evictable[s] {
        return false;
      }
      heap.evictable := heap.evictable[s := false];
      heap.Detach(s, i);
      assert W() == old(W());
      EvictItems(s);
      ok := true;
    }

    /** An expired segment goes back to the free pool. */
    method ExpireSeg(s: nat, ghost i: nat) returns (ok: bool)
      requires IndexOk() && heap.Inv() && s < heap.n && heap.wref[s] == 0 && heap.lists.owner[s] >= 0
      requires i < |heap.lists.chains[heap.lists.owner[s]]| && heap.lists.chains[heap.lists.owner[s]][i] == s
      modifies `table, `chains, heap`nLive, heap`liveBytes, heap`deleted
      modifies heap`links, heap`lists, heap`accessible, heap`evictable, heap`writeOffset, heap`ends
      ensures IndexOk() && heap.Inv() && ok == old(heap.evictable[s])
      ensures !ok ==> heap.lists == old(heap.lists) && heap.evictable == old(heap.evictable) && W() == old(W())
      ensures ok ==> heap.lists == FreedTo(RemovedAt(old(heap.lists), old(heap.lists.owner[s]), i), s)
      ensures ok ==> heap.links.nFree == old(heap.links.nFree) + 1 && heap.ends == old(heap.ends)[s := 0]
      ensures ok ==> heap.evictable == old(heap.evictable)[s := false]
      ensures ok ==> LostAll(old(W()), W(), s)
    {
      hide World.Sound, World.Look, MarksOk, TableOk, Vacant, Heap.SegsOk, Heap.Sorted, Heap.TtlOk, ListsOk;
      ok := RmAllItemOnSeg(s, true, i);
      if ok {
        ghost var w := W();
        SoundEmptied(w, s, w.(ends := w.ends[s := 0]));
        heap.FreeHeld(s);
        assert W() == w.(ends := w.ends[s := 0]);
      }
    }

    /** Every linked segment has an item, so a walk's unsigned limit does not wrap around. */
    lemma NoWrap(s: nat)
      requires Valid() && s < heap.n && heap.lists.owner[s] >= 0
      ensures heap.ends[s] >= 16 && heap.writeOffset[s] >= 16
      ensures Limit(heap.writeOffset[s], heap.segSize) == Min(heap.writeOffset[s], heap.segSize) - ITEM_HDR_SIZE
    {
      hide IndexOk, ListsOk, Heap.Sorted, Heap.TtlOk, Tiles;
      LimitIs(heap.cells[s], heap.segSize, heap.writeOffset[s], heap.ends[s]);
    }

    /** Every entry leads to a segment that is linked in a TTL bucket: none to a free or recycled one. */
    lemma NoDangling(b: nat, i: nat)
      requires Valid() && b < |chains| && i < |chains[b]| && chains[b][i].Entry?
      ensures chains[b][i].loc.seg < heap.n && heap.lists.owner[chains[b][i].loc.seg] >= 0
    {
      assert Good(heap.cells, heap.ends, hs, |chains|, b, chains[b][i]);
      var l := chains[b][i].loc;
      StartHasItem(heap.cells[l.seg], 0, heap.ends[l.seg], l.off);
      assert Placed(heap.lists, l.seg);
    }

    lemma LookLinked(k: Key)
      requires Valid() && W().Look(k).Some?
      ensures W().Look(k).value.seg < heap.n && heap.lists.owner[W().Look(k).value.seg] >= 0
    {
      LookNamed(W(), k);
      var b, i :| 0 <= b < |chains| && 0 <= i < |chains[b]| && chains[b][i].Entry? &&
        chains[b][i].loc == W().Look(k).value;
      NoDangling(b, i);
    }

    /** Take an expired segment off the front of its list. */
    method ExpireHead(b: nat, s: nat)
      requires Valid() && b < N_BUCKET && s < heap.n && heap.wref[s] == 0
      requires heap.lists.chains[b] != [] && heap.lists.chains[b][0] == s
      modifies `table, `chains, heap`nLive, heap`liveBytes, heap`deleted
      modifies heap`links, heap`lists, heap`accessible, heap`evictable, heap`writeOffset, heap`ends
      ensures Valid() && LostAll(old(W()), W(), s)
      ensures heap.lists.chains == old(heap.lists.chains)[b := old(heap.lists.chains[b])[1..]]
    {
      hide World.Sound, World.Look, MarksOk, TableOk, ListsOk, Tiles, SegTiled, SortedAlong;
      ghost var q := heap.lists.chains[b];
      ChainLinked(heap.links, heap.lists, b);
      var ok := ExpireSeg(s, 0);
      assert Without(q, 0) == q[1..];
    }

    /** Expired segments have been taken off the front of bucket b's list, and keys with them. */
    ghost predicate Expiring(w0: World, lists: seq<seq<int>>, b: nat, dead: seq<bool>)
      reads this, heap
    {
      && Valid() && heap.Shaped() && w0.Sound() && W().Sound() && dead == heap.ExpiredNow()
      && |dead| == |w0.mem| && LostIn(w0, W(), dead)
      && b < N_BUCKET == |lists| && InRange(lists[b], heap.n) && InRange(heap.lists.chains[b], heap.n)
      && heap.links.first[b] == Head(heap.lists.chains[b]) && heap.lists.chains == lists[b := heap.lists.chains[b]]
      && Survivors(heap.lists.chains[b], dead) == Survivors(lists[b], dead)
      && forall s :: 0 <= s < heap.n && dead[s] ==> heap.wref[s] == 0
    }

    /** One more, the first of the list; n is the one behind it. */
    method ExpireNext(b: nat, s: nat, ghost w0: World, ghost lists: seq<seq<int>>, ghost dead: seq<bool>)
      returns (n: int)
      requires Expiring(w0, lists, b, dead) && s < heap.n && heap.links.first[b] == s && dead[s]
      modifies `table, `chains, heap`nLive, heap`liveBytes, heap`deleted
      modifies heap`links, heap`lists, heap`accessible, heap`evictable, heap`writeOffset, heap`ends
      ensures Expiring(w0, lists, b, dead) && n == heap.links.first[b]
      ensures |heap.lists.chains[b]| == |old(heap.lists.chains[b])| - 1
    {
      hide Valid, World.Sound, World.Look, LostIn, LostAll, Linked, InRange;
      ghost var q, w := heap.lists.chains[b], W();
      ValidChain(b);
      HeadNext(heap.links.prev, heap.links.next, q);
      n := heap.links.next[s];
      ExpireHead(b, s);
      ValidShaped();
      ValidChain(b);
      LostInMore(w0, w, W(), s, dead);
    }

    /** Take the expired segments off the front of one list. */
    method ExpireBucket(b: nat, ghost dead: seq<bool>)
      requires Valid() && b < N_BUCKET && dead == heap.ExpiredNow()
      requires forall s :: 0 <= s < heap.n && dead[s] ==> heap.wref[s] == 0
      modifies `table, `chains, heap`nLive, heap`liveBytes, heap`deleted
      modifies heap`links, heap`lists, heap`accessible, heap`evictable, heap`writeOffset, heap`ends
      ensures Valid() && InRange(old(heap.lists.chains[b]), heap.n) && LostIn(old(W()), W(), dead)
      ensures heap.lists.chains == old(heap.lists.chains)[b := Survivors(old(heap.lists.chains[b]), dead)]
    {
      hide Valid, World.Sound, World.Look, LostIn, Linked, InRange;
      ValidShaped();
      ghost var w0, lists := W(), heap.lists.chains;
      ValidChain(b);
      LostInSelf(w0, dead);
      FirstIs(b);
      var s := heap.links.first[b];
      while s != -1 && heap.Expired(s)
        invariant Expiring(w0, lists, b, dead) && s == heap.links.first[b]
        invariant s != -1 ==> 0 <= s < heap.n
        decreases |heap.lists.chains[b]|
      {
        s := ExpireNext(b, s, w0, lists, dead);
        FirstIs(b);
      }
      FirstIs(b);
      assert heap.lists.chains[b] == Survivors(lists[b], dead);
    }

    /** In every list the dead are in front. */
    lemma DeadInFront(b: nat, dead: seq<bool>)
      requires Valid() && b < N_BUCKET && dead == heap.ExpiredNow()
      ensures Cleansed(heap.lists.chains[b], dead)
    {
      hide World.Sound, TableOk, Linked, NoDup, ListsOk, Heap.SegsOk;
      var q := heap.lists.chains[b];
      ChainLinked(heap.links, heap.lists, b);
      assert SortedAlong(heap.createAt, q);
      SurvivorsAlive(q, dead, heap.createAt, BucketTtl(b), heap.now, heap.flushAt);
    }

    /**
     * One pass over all lists. It stops in each list at the first segment that is not expired,
     * and yet leaves no expired segment in any list, and loses exactly the keys whose current
     * item was on one.
     */
    method CheckSegExpire()
      requires Valid()
      requires forall s :: 0 <= s < heap.n && heap.Expired(s) ==> heap.wref[s] == 0
      modifies `table, `chains, heap`nLive, heap`liveBytes, heap`deleted
      modifies heap`links, heap`lists, heap`accessible, heap`evictable, heap`writeOffset, heap`ends
      ensures Valid()
      ensures forall b, i :: 0 <= b < N_BUCKET && 0 <= i < |heap.lists.chains[b]| ==>
                0 <= heap.lists.chains[b][i] < heap.n && !heap.Expired(heap.lists.chains[b][i])
      ensures forall b, x :: 0 <= b < N_BUCKET && x in old(heap.lists.chains[b]) ==>
                0 <= x < heap.n && (!heap.Expired(x) ==> x in heap.lists.chains[b])
      ensures var w := old(W());
              forall k :: w.Look(k).Some? ==> w.Look(k).value.seg < heap.n
      ensures var w := old(W());
              forall k ::
                W().Look(k) == if w.Look(k).Some? && heap.Expired(w.Look(k).value.seg) then None else w.Look(k)
    {
      hide World.Sound, World.Look, Valid, Survivors, LostIn, Linked;
      ValidShaped();
      ghost var dead := heap.ExpiredNow();
      ghost var w0, all := W(), heap.lists.chains;
      forall b | 0 <= b < N_BUCKET ensures Cleansed(all[b], dead) {
        DeadInFront(b, dead);
      }
      ExpireBuckets(dead);
      ValidShaped();
      SweptIs(all, dead);
      forall b, i | 0 <= b < N_BUCKET && 0 <= i < |heap.lists.chains[b]|
        ensures 0 <= heap.lists.chains[b][i] < heap.n && !dead[heap.lists.chains[b][i]]
      {
        assert Cleansed(all[b], dead);
      }
      forall b, x | 0 <= b < N_BUCKET && x in all[b]
        ensures 0 <= x < heap.n && (!dead[x] ==> x in heap.lists.chains[b])
      {
        assert Cleansed(all[b], dead);
      }
      LostExactly(w0, dead);
    }

    /** The pass over all lists. */
    method ExpireBuckets(ghost dead: seq<bool>)
      requires Valid() && dead == heap.ExpiredNow()
      requires forall s :: 0 <= s < heap.n && dead[s] ==> heap.wref[s] == 0
      requires AllInRange(heap.lists.chains, |dead|)
      modifies `table, `chains, heap`nLive, heap`liveBytes, heap`deleted
      modifies heap`links, heap`lists, heap`accessible, heap`evictable, heap`writeOffset, heap`ends
      ensures Valid() && LostIn(old(W()), W(), dead)
      ensures heap.lists.chains == Swept(old(heap.lists.chains), dead, N_BUCKET)
    {
      hide World.Sound, World.Look, Valid, Survivors, LostIn, InRange, Swept, AllInRange;
      ValidShaped();
      ghost var w0, all := W(), heap.lists.chains;
      LostInSelf(w0, dead);
      SweptNone(all, dead);
      for b := 0 to N_BUCKET
        invariant Valid() && W().Sound() && |W().mem| == |dead| && LostIn(w0, W(), dead)
        invariant heap.lists.chains == Swept(all, dead, b)
      {
        ghost var w := W();
        SweptMore(all, dead, b);
        ExpireBucket(b, dead);
        ValidShaped();
        LostInTrans(w0, w, W(), dead);
      }
    }

    lemma ValidChain(b: nat)
      requires Valid() && b < N_BUCKET
      ensures var q := heap.lists.chains[b];
              Linked(heap.links.prev, heap.links.next, q) && InRange(q, heap.n) && heap.links.first[b] == Head(q)
    {
      hide IndexOk, SegTiled, ListsOk, InRange1, Linked;
      ChainLinked(heap.links, heap.lists, b);
    }

    lemma ValidShaped()
      requires Valid()
      ensures heap.Shaped() && W().Sound()
    {
    }

    lemma LostExactly(w: World, dead: seq<bool>)
      requires Valid() && w.Sound() && |dead| == |w.mem| == heap.n && LostIn(w, W(), dead)
      requires forall b, i :: 0 <= b < N_BUCKET && 0 <= i < |heap.lists.chains[b]| ==>
                 0 <= heap.lists.chains[b][i] < heap.n && !dead[heap.lists.chains[b][i]]
      ensures forall k :: w.Look(k).Some? ==> w.Look(k).value.seg < |dead|
      ensures forall k :: W().Look(k) == if w.Look(k).Some? && dead[w.Look(k).value.seg] then None else w.Look(k)
    {
      hide World.Sound;
      forall k ensures W().Look(k) == if w.Look(k).Some? && dead[w.Look(k).value.seg] then None else w.Look(k) {
        if W().Look(k).Some? {
          LookLinked(k);
          assert Placed(heap.lists, W().Look(k).value.seg);
        }
      }
    }

    /** The entries of a key whose item at l was copied to l', in the table. */
    method RelinkSlots(b: nat, ghost c: Chain, key: Key, l: Loc, l': Loc) returns (raw: seq<Bucket>, current: bool)
      requires heap.Shaped() && b < |table| && Scans(table[b], c) && Backed(heap.cells, c)
      requires InMem(heap.cells, l') && l' != l
      modifies heap`nLive, heap`liveBytes, heap`deleted
      ensures heap.Shaped() && (current <==> Find(heap.cells, key, hs.g(key), c) == Some(l))
      ensures var c' := Relinked(heap.cells, key, hs.g(key), c, l, l');
              var d := if current then c + [Entry(hs.g(key), 0, l')] else c;
              && Scans(raw, c') && Backed(heap.cells, d) && Backed(heap.cells, c') && |c| <= |c'|
              && Balanced(heap.cells, d, old(heap.nLive), old(heap.liveBytes), c', heap.nLive, heap.liveBytes)
              && heap.deleted == old(heap.deleted) + Dropped(c, c')
    {
      hide Scans, BalancedFor, Dropped, Backed, Relinked, Find;
      raw, current := HashTable.Relink(heap, table[b], c, key, hs.g(key), l, l');
      assert c + [] == c;
    }

    /**
     * Point a key from the item at l to its copy at l', if l is current, and count the copy on
     * its segment. Stale entries of the key go in any case.
     */
    method HashtableRelink(key: Key, l: Loc, l': Loc) returns (current: bool)
      requires IndexOk() && InMem(heap.cells, l) && InMem(heap.cells, l') && l.seg != l'.seg
      requires ItemAt(heap.cells, l).key == key && ItemAt(heap.cells, l') == ItemAt(heap.cells, l)
      requires W().Look(key) == Some(l) ==> AtStart(heap.cells, heap.ends, l')
      requires Unnamed(chains, l') && l' !in heap.deleted
      requires forall i :: 0 <= i < |pending| && pending[i].Entry? ==> pending[i].loc != l'
      modifies `table, `chains, heap`nLive, heap`liveBytes, heap`deleted
      ensures IndexOk() && Unnamed(chains, l) && Inherits(chains, old(chains), l'.seg)
      ensures current <==> old(W()).Look(key) == Some(l)
      ensures forall k :: W().Look(k) == if k == key && current then Some(l') else old(W()).Look(k)
    {
      hide World.Sound, World.Look, Scans, Balanced, Dropped, Unnamed, MarksOk, Backed, Relinked, Inherits, AtStart,
        TableScans;
      ghost var w := W();
      ghost var b0 := ChainOf(key);
      var b := BucketFor(hs, |table|, key);
      ghost var c := chains[b];
      LookIsFind(w, key, b);
      var raw;
      raw, current := RelinkSlots(b, c, key, l, l');
      ghost var c' := Relinked(heap.cells, key, hs.g(key), c, l, l');
      ghost var w' := RelinkWorld(w, old(heap.deleted), key, l, l', b, c', heap.nLive, heap.liveBytes);
      if current {
        heap.nLive := PlusOne(heap.nLive, l');
        heap.liveBytes := PlusBytes(heap.cells, heap.liveBytes, l');
      }
      SetChain(b, raw, c', w');
    }

    /**
     * Copy an item behind those of segment dest and point its key there. If the item turns out
     * not to be the current one of its key, the copy stays outside the segment.
     */
    method CopyItem(dest: nat, l: Loc) returns (current: bool)
      requires IndexOk() && dest < heap.n && l.seg != dest && InMem(heap.cells, l)
      requires SegTiled(heap.cells[dest], heap.segSize, heap.ends[dest], heap.ends[dest])
      requires heap.writeOffset[dest] == heap.ends[dest]
      requires ItemOk(ItemAt(heap.cells, l)) && heap.ends[dest] + ItemSize(ItemAt(heap.cells, l)) <= heap.segSize
      modifies `table, `chains, heap`nLive, heap`liveBytes, heap`deleted
      modifies heap`cells, heap`writeOffset, heap`ends
      ensures IndexOk()
      ensures var e := old(heap.ends[dest]);
              var it := old(ItemAt(heap.cells, l));
              && (current <==> old(W()).Look(it.key) == Some(l))
              && (forall k :: W().Look(k) == if k == it.key && current then Some(Loc(dest, e)) else old(W()).Look(k))
              && heap.cells == Written(old(heap.cells), dest, e, it)
              && heap.ends == old(heap.ends)[dest := if current then e + ItemSize(it) else e]
              && heap.writeOffset == old(heap.writeOffset)[dest := heap.ends[dest]]
      ensures SegTiled(heap.cells[dest], heap.segSize, heap.ends[dest], heap.ends[dest])
      ensures Unnamed(chains, l) && Inherits(chains, old(chains), dest)
    {
      hide World.Sound, World.Look, TableOk, Unnamed, MarksOk, SegTiled, Inherits;
      hide ItemSize, ItemOk, AtStart, WriteItem, Tiles;
      ghost var w := W();
      var it := ItemAt(heap.cells, l);
      var e := heap.writeOffset[dest];
      AppendCopy(dest, e, it, w.Look(it.key) == Some(l));
      current := HashtableRelink(it.key, l, Loc(dest, e));
      if current {
        heap.writeOffset := heap.writeOffset[dest := e + ItemSize(it)];
      }
    }

    /** Write an item at the end of segment dest; `grow` tells if it is to be part of the segment. */
    method AppendCopy(dest: nat, e: nat, it: Item, ghost grow: bool)
      requires IndexOk() && dest < heap.n && e == heap.ends[dest] && SegTiled(heap.cells[dest], heap.segSize, e, e)
      requires ItemOk(it) && e + ItemSize(it) <= heap.segSize
      modifies heap`cells, heap`deleted, heap`ends
      ensures IndexOk() && (forall k :: W().Look(k) == old(W()).Look(k))
      ensures heap.cells == Written(old(heap.cells), dest, e, it)
      ensures heap.ends == old(heap.ends)[dest := if grow then e + ItemSize(it) else e]
      ensures SegTiled(heap.cells[dest], heap.segSize, heap.ends[dest], heap.ends[dest])
      ensures grow ==> AtStart(heap.cells, heap.ends, Loc(dest, e))
      ensures Unnamed(chains, Loc(dest, e)) && Loc(dest, e) !in heap.deleted
      ensures forall i :: 0 <= i < |pending| && pending[i].Entry? ==> pending[i].loc != Loc(dest, e)
    {
      hide World.Sound, World.Look, TableOk, Unnamed, MarksOk, SegTiled, ItemSize, ItemOk, AtStart, WriteItem, Tiles;
      ghost var w := W();
      ghost var e' := if grow then e + ItemSize(it) else e;
      ghost var w' := w.(mem := Written(w.mem, dest, e, it), ends := w.ends[dest := e']);
      SoundAppend(w, dest, heap.segSize, it, grow, e, e', w');
      // the copied header is that of an item that is not deleted
      MarksLess(chains, pending, heap.deleted, {Loc(dest, e)});
      heap.cells := heap.cells[dest := WriteItem(heap.cells[dest], e, it)];
      heap.deleted := heap.deleted - {Loc(dest, e)};
      heap.ends := heap.ends[dest := e'];
      assert W() == w';
    }

    /** The merged segment as far as it is filled, and the other segments as before. */
    ghost predicate Filling(dest: nat, cells: seq<Cells>, ends: seq<nat>, wo: seq<int>)
      reads heap
    {
      && heap.Shaped() && dest < heap.n == |cells| == |ends| == |wo|
      && SegTiled(heap.cells[dest], heap.segSize, heap.ends[dest], heap.ends[dest])
      && heap.writeOffset[dest] == heap.ends[dest] >= ends[dest]
      && heap.cells == cells[dest := heap.cells[dest]] && heap.ends == ends[dest := heap.ends[dest]]
      && heap.writeOffset == wo[dest := heap.writeOffset[dest]]
    }

    /** If the merged segment has items, some key leads to it. */
    ghost predicate UsedIfFilled(dest: nat)
      requires IndexOk() && dest < heap.n
      reads this, heap
    {
      heap.ends[dest] > 0 ==> Inhabited(W(), dest)
    }

    /** A merge into segment p.dest that began in w0 has done d; the walk over d.src stands at d.a. */
    ghost predicate Copying(w0: World, d: Done, p: Plan, cells: seq<Cells>, ends: seq<nat>, wo: seq<int>)
      reads this, heap
    {
      && IndexOk() && Filling(p.dest, cells, ends, wo) && UsedIfFilled(p.dest)
      && d.src < heap.n && d.src != p.dest && d.src !in d.gone && p.segSize == heap.segSize
      && Ahead(W(), d.src, d.a) && w0.Sound() && Progress(w0, W(), d, p) && WalkInStep(w0, d, p)
    }

    /** The source is as it was when the merge began, and the merged segment is filled as far as it should be. */
    ghost predicate WalkInStep(w0: World, d: Done, p: Plan)
      requires w0.Sound()
      reads heap`cells, heap`ends
    {
      && d.src < |heap.cells| == |heap.ends| == |w0.mem| && p.dest < |heap.ends|
      && d.src in p.base && TiledSeg(w0, d.src)
      && heap.cells[d.src] == w0.mem[d.src] && heap.ends[d.src] == w0.ends[d.src]
      && Boundary(w0.mem[d.src], w0.ends[d.src], d.a) && heap.ends[p.dest] == Reach(w0, p, Loc(d.src, d.a))
    }

    /** Evict the item the walk stands at. */
    method CopyDrop(l: Loc, ghost w0: World, ghost d: Done, ghost p: Plan,
                    ghost cells: seq<Cells>, ghost ends: seq<nat>, ghost wo: seq<int>)
      requires Copying(w0, d, p, cells, ends, wo) && l == Loc(d.src, d.a) && d.a < heap.ends[d.src]
      requires HasItem(heap.cells[d.src], d.a)
      requires || l in heap.deleted || !p.keep(l)
               || heap.writeOffset[p.dest] + ItemSize(ItemAt(heap.cells, l)) > heap.segSize
      modifies `table, `chains, heap`nLive, heap`liveBytes, heap`deleted
      ensures Copying(w0, d.(a := d.a + ItemSize(ItemAt(heap.cells, l))), p, cells, ends, wo)
      ensures Inherits(chains, old(chains), p.dest)
    {
      hide World.Sound, World.Look, TableOk, MarksOk, Unnamed, Inherits, Progress, Inhabited, Ahead, SegTiled,
        ItemSize, Sub;
      hide Reach, TiledSeg, Boundary, Tiles;
      ghost var w := W();
      WalkInStepNext(w0, d, p);
      var it := ItemAt(heap.cells, l);
      if w.Look(it.key) == Some(l) {
        CurrentUnmarked(w, heap.deleted, it.key);
      }
      var found := HashtableEvict(it.key, l);
      SubInherits(chains, w.t, p.dest);
      ProgressEvict(w0, w, W(), d, d.(a := d.a + ItemSize(it)), p, it);
      if heap.ends[p.dest] > 0 {
        InhabitedEvict(w, W(), p.dest, it.key, l);
      }
      AheadStep(w, W(), d.src, d.a, p.dest);
    }

    /** Move the item the walk stands at. */
    method CopyMove(dest: nat, l: Loc, ghost w0: World, ghost d: Done, ghost p: Plan,
                    ghost cells: seq<Cells>, ghost ends: seq<nat>, ghost wo: seq<int>)
      requires Copying(w0, d, p, cells, ends, wo) && l == Loc(d.src, d.a) && d.a < heap.ends[d.src] && dest == p.dest
      requires HasItem(heap.cells[d.src], d.a) && ItemOk(ItemAt(heap.cells, l))
      requires p.keep(l) && heap.writeOffset[dest] + ItemSize(ItemAt(heap.cells, l)) <= heap.segSize
      modifies `table, `chains, heap`nLive, heap`liveBytes, heap`deleted
      modifies heap`cells, heap`writeOffset, heap`ends
      ensures Copying(w0, d.(a := d.a + old(ItemSize(ItemAt(heap.cells, l)))), p, cells, ends, wo)
      ensures Inherits(chains, old(chains), p.dest)
    {
      hide World.Sound, World.Look, TableOk, MarksOk, Unnamed, Inherits, Progress, Inhabited, Ahead, SegTiled,
        ItemSize, ItemOk, Tiles;
      hide Reach, TiledSeg, Boundary;
      ghost var w := W();
      WalkInStepNext(w0, d, p);
      ghost var it := ItemAt(heap.cells, l);
      TiledTiles(heap.cells[dest], heap.segSize, heap.ends[dest], heap.ends[dest]);
      var current := CopyItem(dest, l);
      ProgressCopy(w0, w, W(), d, d.(a := d.a + ItemSize(it)), p, it, current);
      if heap.ends[dest] > 0 {
        InhabitedCopy(w, W(), dest, it.key, w.ends[dest], current);
      }
      AheadStep(w, W(), d.src, d.a, dest);
    }

    /** Move or evict the item the walk stands at. */
    method CopyNext(dest: nat, l: Loc, it: Item, keep: Loc -> bool, ghost w0: World, ghost d: Done, ghost p: Plan,
                    ghost cells: seq<Cells>, ghost ends: seq<nat>, ghost wo: seq<int>)
      requires Copying(w0, d, p, cells, ends, wo) && l == Loc(d.src, d.a) && d.a < heap.ends[d.src] && dest == p.dest
      requires HasItem(heap.cells[d.src], d.a) && ItemAt(heap.cells, l) == it && ItemOk(it) && keep == p.keep
      modifies `table, `chains, heap`nLive, heap`liveBytes, heap`deleted
      modifies heap`cells, heap`writeOffset, heap`ends
      ensures Copying(w0, d.(a := d.a + ItemSize(it)), p, cells, ends, wo) && Inherits(chains, old(chains), p.dest)
    {
      hide World.Sound, World.Look, TableOk, MarksOk, Inherits, Progress, Inhabited, Ahead, SegTiled, ItemSize,
        ItemOk, WalkInStep;
      if l in heap.deleted || !keep(l) || heap.writeOffset[dest] + ItemSize(it) > heap.segSize {
        CopyDrop(l, w0, d, p, cells, ends, wo);
      } else {
        CopyMove(dest, l, w0, d, p, cells, ends, wo);
      }
    }

    /**
     * Move the items of segment src that are to be kept to segment dest, as far as they fit, and
     * evict the others. Nothing refers to src afterwards.
     */
    method SegCopy(dest: nat, src: nat, keep: Loc -> bool, ghost w0: World, ghost gone: set<nat>, ghost p: Plan)
      requires IndexOk() && src < heap.n && dest != src && src !in gone && heap.wref[src] == 0 && heap.ends[src] > 0
      requires p.dest == dest && p.segSize == heap.segSize && p.keep == keep
      requires Filling(dest, heap.cells, heap.ends, heap.writeOffset) && UsedIfFilled(dest)
      requires SegTiled(heap.cells[src], heap.segSize, heap.writeOffset[src], heap.ends[src])
      requires w0.Sound() && Progress(w0, W(), Done(gone, src, 0), p) && WalkInStep(w0, Done(gone, src, 0), p)
      modifies `table, `chains, heap`nLive, heap`liveBytes, heap`deleted
      modifies heap`cells, heap`writeOffset, heap`ends
      ensures IndexOk() && Vacant(W(), src) && Inherits(chains, old(chains), dest)
      ensures Filling(dest, old(heap.cells), old(heap.ends), old(heap.writeOffset)) && UsedIfFilled(dest)
      ensures Progress(w0, W(), Done(gone + {src}, src, 0), p) && WalkInStep(w0, Done(gone, src, w0.ends[src]), p)
    {
      hide Copying, World.Sound, World.Look, IndexOk, UsedIfFilled, Vacant, Inherits, Progress, Ahead, SegTiled,
        WalkInStep;
      ghost var cells, ends, wo := heap.cells, heap.ends, heap.writeOffset;
      CopyBegins(w0, Done(gone, src, 0), p);
      InheritsSelf(chains, dest);
      var limit := Limit(heap.writeOffset[src], heap.segSize);
      var curr: nat, more := 0, true;
      while curr < limit && more
        invariant Copying(w0, Done(gone, src, curr), p, cells, ends, wo) && |heap.cells| == heap.n
        invariant Inherits(chains, old(chains), dest)
        invariant more || (curr in heap.cells[src] && heap.cells[src][curr].Zero?)
        decreases limit - curr, more
      {
        ghost var t := chains;
        curr, more := CopyStep(dest, src, curr, keep, w0, gone, p, cells, ends, wo);
        InheritsTrans(old(chains), t, chains, dest);
      }
      CopyEnds(w0, Done(gone, src, curr), p, cells, ends, wo);
    }

    lemma CopyBegins(w0: World, d: Done, p: Plan)
      requires IndexOk() && d.src < heap.n && p.dest != d.src && d.src !in d.gone && d.a == 0
      requires p.segSize == heap.segSize
      requires Filling(p.dest, heap.cells, heap.ends, heap.writeOffset) && UsedIfFilled(p.dest)
      requires SegTiled(heap.cells[d.src], heap.segSize, heap.writeOffset[d.src], heap.ends[d.src])
      requires w0.Sound() && Progress(w0, W(), d, p) && WalkInStep(w0, d, p)
      ensures Copying(w0, d, p, heap.cells, heap.ends, heap.writeOffset) && |heap.cells| == heap.n
    {
      hide World.Sound, World.Look, IndexOk, UsedIfFilled, Progress, SegTiled, WalkInStep;
      IndexSound();
      TiledStart(W(), d.src, heap.segSize, heap.writeOffset[d.src]);
    }

    /** The walk has come to the end of the items. */
    lemma CopyEnds(w0: World, d: Done, p: Plan, cells: seq<Cells>, ends: seq<nat>, wo: seq<int>)
      requires Copying(w0, d, p, cells, ends, wo) && d.src < |cells| && heap.wref[d.src] == 0 && ends[d.src] > 0
      requires SegTiled(cells[d.src], heap.segSize, wo[d.src], ends[d.src])
      requires (d.a in heap.cells[d.src] && heap.cells[d.src][d.a].Zero?) || d.a >= Limit(wo[d.src], heap.segSize)
      ensures IndexOk() && Vacant(W(), d.src) && Filling(p.dest, cells, ends, wo) && UsedIfFilled(p.dest) && w0.Sound()
      ensures W().Sound() && p.dest < heap.n
      ensures Progress(w0, W(), Done(d.gone + {d.src}, d.src, 0), p) && WalkInStep(w0, d.(a := w0.ends[d.src]), p)
    {
      hide World.Sound, World.Look, IndexOk, UsedIfFilled, Vacant, Progress, SegTiled, Ahead;
      IndexSound();
      WalkDone(W(), d.src, d.a, heap.segSize, wo[d.src]);
      WalkEnd(W(), d.src, d.a, heap.segSize, wo[d.src]);
      ProgressDone(w0, W(), d, p);
    }

    /** Read the header the walk stands at; unless it marks the end, move or evict the item and go on. */
    method CopyStep(dest: nat, src: nat, curr: nat, keep: Loc -> bool, ghost w0: World, ghost gone: set<nat>,
                    ghost p: Plan,
                    ghost cells: seq<Cells>, ghost ends: seq<nat>, ghost wo: seq<int>)
      returns (curr': nat, more: bool)
      requires Copying(w0, Done(gone, src, curr), p, cells, ends, wo) && dest == p.dest && keep == p.keep
      requires src < |cells| && ends[src] > 0 && curr < Limit(wo[src], heap.segSize)
      requires SegTiled(cells[src], heap.segSize, wo[src], ends[src])
      modifies `table, `chains, heap`nLive, heap`liveBytes, heap`deleted
      modifies heap`cells, heap`writeOffset, heap`ends
      ensures Copying(w0, Done(gone, src, curr'), p, cells, ends, wo) && |heap.cells| == heap.n && src < heap.n
      ensures Inherits(chains, old(chains), dest)
      ensures if more then curr' > curr else curr' == curr && curr in heap.cells[src] && heap.cells[src][curr].Zero?
    {
      hide World.Sound, World.Look, IndexOk, UsedIfFilled, Inherits, Progress, Ahead, SegTiled, Tiles, ItemSize,
        ItemOk;
      hide Reach, TiledSeg, Boundary;
      AheadTiles(W(), src, curr);
      WalkReads(cells[src], heap.segSize, wo[src], ends[src], curr);
      InheritsSelf(chains, dest);
      if heap.cells[src][curr].Zero? {
        return curr, false;
      }
      var it := heap.cells[src][curr].item;
      WalkItem(cells[src], curr, ends[src]);
      CopyNext(dest, Loc(src, curr), it, keep, w0, Done(gone, src, curr), p, cells, ends, wo);
      curr', more := curr + ItemSize(it), true;
    }

    /** What passing an item means for how far the merged segment should be filled. */
    lemma WalkInStepNext(w0: World, d: Done, p: Plan)
      requires w0.Sound() && WalkInStep(w0, d, p) && d.a < heap.ends[d.src]
      ensures HasItem(w0.mem[d.src], d.a) && InMem(w0.mem, Loc(d.src, d.a))
      ensures var a' := d.a + ItemSize(w0.mem[d.src][d.a].item);
              && Boundary(w0.mem[d.src], w0.ends[d.src], a')
              && Reach(w0, p, Loc(d.src, a'))
                 == heap.ends[p.dest] + Gain(w0, p.segSize, p.keep, Loc(d.src, d.a), heap.ends[p.dest])
    {
      hide World.Sound, World.Look, Reach, Gain;
      ReachStep(w0, p, d.src, d.a);
    }

    lemma IndexSound()
      requires IndexOk()
      ensures heap.Shaped() && W().Sound()
    {
    }

    /**
     * A merge of the segments qs of bucket b's list pre + qs + post into segment s has done the
     * first m. The first one merged is held by the caller and s is in its place; the others
     * merged are free again.
     */
    ghost predicate MergeLists(s: int, j: Job, m: nat)
      reads heap
    {
      && heap.Inv() && 0 <= s < heap.n && j.Ok(heap.n) && m <= |j.qs|
      && heap.lists.chains == j.lists[j.b := j.Chain(s, m)] && s !in j.lists[j.b]
      && (forall t :: 0 <= t < heap.n ==> (heap.lists.owner[t] == HELD <==> t == j.Held(s, m)))
      && !heap.evictable[s] && heap.accessible[s]
      && (forall t :: 0 <= t < heap.n && t in j.qs ==> !heap.evictable[t] && heap.wref[t] == 0)
      && (forall t :: 0 <= t < heap.n && heap.lists.owner[t] >= 0 && t != s && t !in j.qs ==> heap.evictable[t])
      && (forall i :: 0 <= i < m ==> heap.lists.owner[j.qs[i]] < 0)
      && heap.links.nFree == j.nFree + (if m == 0 then -1 else m - 2) && heap.FilledBut(s)
    }

    /** No segment but the merged one is written to. */
    ghost predicate OnlyInto(s: int, j: Job)
      reads `pending, heap`cells
    {
      && |heap.cells| == |j.w0.mem| == heap.n && 0 <= s < heap.n
      && pending == j.w0.pending && heap.cells == j.w0.mem[s := heap.cells[s]]
    }

    /** The merged segment was vacant, and takes its age and ttl from the first one merged. */
    ghost predicate Passes(s: int, j: Job)
      reads heap`createAt, heap`ttl
    {
      && |heap.createAt| == |heap.ttl| == heap.n && 0 <= s < heap.n && j.Ok(heap.n)
      && |j.w0.at| == |j.w0.ttl| == heap.n && Vacant(j.w0, s)
      && heap.createAt == j.w0.at[s := j.w0.at[j.qs[0]]] && heap.ttl == j.w0.ttl[s := j.w0.ttl[j.qs[0]]]
    }

    /** What has become of the keys by then. */
    ghost predicate MergeKeys(s: int, j: Job, m: nat)
      reads this, heap
    {
      && IndexOk() && 0 <= s < heap.n && j.Ok(heap.n) && m <= |j.qs|
      && Filling(s, heap.cells, heap.ends, heap.writeOffset) && UsedIfFilled(s)
      && (m > 0 ==> j.qs[0] >= 0 && Vacant(W(), j.qs[0]))
      && Passes(s, j) && OnlyInto(s, j) && Leveled(s, j, m)
      && j.w0.Sound() && Progress(j.w0, W(), Done(Merged(j.qs, m), 0, 0), j.P(s, heap.segSize))
    }

    /** The merged segment is filled up to the level of the first m, and the others are as they were. */
    ghost predicate Leveled(s: int, j: Job, m: nat)
      reads heap`cells, heap`ends
    {
      && j.Based(heap.segSize) && m <= |j.qs| && 0 <= s < |heap.ends| == |heap.cells| == |j.w0.mem|
      && heap.ends[s] == Level(j.w0, heap.segSize, j.keep, j.qs, m)
      && forall i :: m <= i < |j.qs| ==> SameSeg(j.w0, j.qs[i])
    }

    ghost predicate SameSeg(w0: World, t: int)
      reads heap`cells, heap`ends
    {
      && 0 <= t < |heap.ends| == |heap.cells| == |w0.mem| == |w0.ends|
      && heap.cells[t] == w0.mem[t] && heap.ends[t] == w0.ends[t] > 0
    }

    /** The next segment is copied from its beginning, into the merged one as it is filled by then. */
    lemma LeveledNext(s: nat, src: nat, j: Job, m: nat)
      requires Leveled(s, j, m) && m < |j.qs| && j.qs[m] == src
      ensures WalkInStep(j.w0, Done(Merged(j.qs, m), src, 0), j.P(s, heap.segSize))
    {
      hide World.Sound, World.Look, FillTo, Tiles;
      assert TiledSeg(j.w0, src) && SameSeg(j.w0, j.qs[m]);
      ReachStart(j.w0, j.P(s, heap.segSize), src);
    }

    /** A segment that was copied has brought the merged one to the next level. */
    lemma LeveledDone(s: nat, src: nat, j: Job, m: nat)
      requires j.Based(heap.segSize) && m < |j.qs| && j.qs[m] == src
      requires WalkInStep(j.w0, Done(Merged(j.qs, m), src, j.w0.ends[src]), j.P(s, heap.segSize))
      requires forall i :: m < i < |j.qs| ==> SameSeg(j.w0, j.qs[i])
      ensures Leveled(s, j, m + 1)
    {
      hide World.Sound, World.Look, FillTo, Tiles;
      assert TiledSeg(j.w0, src);
    }

    /** The next segment to merge is in the list, right behind the merged ones' place. */
    lemma MergeNext(s: nat, src: nat, j: Job, m: nat)
      requires MergeLists(s, j, m) && m < |j.qs| && j.qs[m] == src
      ensures src < heap.n && src != s && src !in Merged(j.qs, m) && heap.lists.owner[src] == j.b
      ensures var i := |j.pre| + if m == 0 then 0 else 1;
              i < |heap.lists.chains[j.b]| - 1 && heap.lists.chains[j.b][i] == src
      ensures 0 <= j.qs[0] < heap.n && j.qs[0] != s && (m > 0 ==> heap.lists.owner[s] == j.b)
      ensures !heap.evictable[src] && heap.wref[src] == 0 && heap.ends[src] > 0
      ensures SegTiled(heap.cells[src], heap.segSize, heap.writeOffset[src], heap.ends[src])
    {
      hide ListsOk, SegTiled, SortedAlong, Linked, Heap.Sorted, Heap.TtlOk;
      ChainLinked(heap.links, heap.lists, j.b);
      var q, q0 := heap.lists.chains[j.b], j.lists[j.b];
      assert q[|j.pre| + if m == 0 then 0 else 1] == src;
      assert m > 0 ==> q[|j.pre|] == s;
      assert q0[|j.pre| + m] == src && q0[|j.pre|] == j.qs[0] && src in j.qs;
      forall k | 0 <= k < m ensures j.qs[k] != src {
        assert q0[|j.pre| + k] == j.qs[k];
      }
    }

    /** The segments still to merge are different from each other and from the merged one. */
    lemma MergeApart(s: nat, j: Job, m: nat)
      requires MergeLists(s, j, m) && m < |j.qs|
      ensures forall i :: m < i < |j.qs| ==> 0 <= j.qs[i] < heap.n && j.qs[i] != s && j.qs[i] != j.qs[m]
    {
      hide ListsOk, SegTiled, SortedAlong, Linked, Heap.Sorted, Heap.TtlOk, Heap.SegsOk;
      var q0 := j.lists[j.b];
      forall i | m < i < |j.qs| ensures 0 <= j.qs[i] < heap.n && j.qs[i] != s && j.qs[i] != j.qs[m] {
        assert q0[|j.pre| + i] == j.qs[i] && q0[|j.pre| + m] == j.qs[m];
      }
    }

    /** Copy the next segment: what that means for the keys. */
    method CopyKeys(s: nat, src: nat, keep: Loc -> bool, ghost j: Job, ghost m: nat)
      requires MergeKeys(s, j, m) && m < |j.qs| && j.qs[m] == src && keep == j.keep
      requires src != s && src !in Merged(j.qs, m) && src < heap.n && heap.wref[src] == 0 && heap.ends[src] > 0
      requires SegTiled(heap.cells[src], heap.segSize, heap.writeOffset[src], heap.ends[src])
      requires forall i :: m < i < |j.qs| ==> 0 <= j.qs[i] < heap.n && j.qs[i] != s
      requires j.qs[0] != s
      modifies `table, `chains, heap`nLive, heap`liveBytes, heap`deleted
      modifies heap`cells, heap`writeOffset, heap`ends
      ensures IndexOk() && Vacant(W(), src) && (m > 0 ==> j.qs[0] >= 0 && Vacant(W(), j.qs[0]))
      ensures Filling(s, old(heap.cells), old(heap.ends), old(heap.writeOffset)) && UsedIfFilled(s)
      ensures j.w0.Sound() && Progress(j.w0, W(), Done(Merged(j.qs, m) + {src}, src, 0), j.P(s, heap.segSize))
      ensures Passes(s, j) && OnlyInto(s, j) && Leveled(s, j, m + 1)
    {
      hide World.Sound, World.Look, IndexOk, UsedIfFilled, Vacant, Inherits, Progress, SegTiled, Job.Ok;
      hide Job.Based, WalkInStep, Passes, NoDup, InRange, Linked, Level, SortedAlong, Waiting, SameLooks, Merged,
        Inhabited;
      LeveledNext(s, src, j, m);
      IndexSound();
      ghost var w := W();
      SameLooksSelf(w);
      ProgressSame(j.w0, w, w, Done(Merged(j.qs, m), 0, 0), src, j.P(s, heap.segSize));
      SegCopy(s, src, keep, j.w0, Merged(j.qs, m), j.P(s, heap.segSize));
      IndexSound();
      LeveledDone(s, src, j, m);
      if m > 0 {
        VacantInherits(w, W(), j.qs[0], s);
      }
    }

    /** Copy the next segment. The lists stay as they are. */
    method MergeCopy(s: nat, src: nat, keep: Loc -> bool, ghost j: Job, ghost m: nat)
      requires MergeLists(s, j, m) && MergeKeys(s, j, m) && m < |j.qs| && j.qs[m] == src && keep == j.keep
      modifies `table, `chains, heap`nLive, heap`liveBytes, heap`deleted
      modifies heap`cells, heap`writeOffset, heap`ends
      ensures MergeLists(s, j, m) && IndexOk() && src < heap.n && Vacant(W(), src)
      ensures m > 0 ==> j.qs[0] >= 0 && Vacant(W(), j.qs[0])
      ensures Filling(s, heap.cells, heap.ends, heap.writeOffset) && UsedIfFilled(s)
      ensures j.w0.Sound() && Progress(j.w0, W(), Done(Merged(j.qs, m) + {src}, src, 0), j.P(s, heap.segSize))
      ensures Passes(s, j) && OnlyInto(s, j) && Leveled(s, j, m + 1)
    {
      hide World.Sound, World.Look, IndexOk, UsedIfFilled, Vacant, Progress, SegTiled, ListsOk, Heap.Sorted,
        Heap.TtlOk;
      hide MergeKeys, Leveled, OnlyInto, Passes, NoDup, InRange, Linked, SortedAlong, Merged;
      MergeNext(s, src, j, m);
      MergeApart(s, j, m);
      CopyKeys(s, src, keep, j, m);
    }

    /** The merged segment takes the place of the first one. */
    method MergeSwap(s: nat, src: nat, ghost j: Job)
      requires MergeLists(s, j, 0) && j.qs[0] == src
      requires heap.createAt[s] == heap.createAt[src] && heap.ttl[s] == heap.ttl[src]
      modifies heap`links, heap`lists, heap`accessible
      ensures MergeLists(s, j, 1)
    {
      hide SegTiled, ListsOk, Heap.Sorted, Heap.TtlOk, SortedAlong, Heap.SegsOk, Linked, NoDup;
      MergeNext(s, src, j, 0);
      ghost var q := heap.lists.chains[j.b];
      heap.SwapIn(s, src, |j.pre|);
      assert q[|j.pre| := s] == j.Chain(s, 1);
    }

    /** A further segment goes back to the free pool. */
    method MergeFree(s: nat, src: nat, ghost j: Job, ghost m: nat)
      requires MergeLists(s, j, m) && 0 < m < |j.qs| && j.qs[m] == src
      modifies heap`links, heap`lists, heap`accessible, heap`writeOffset, heap`liveBytes, heap`ends
      ensures MergeLists(s, j, m + 1)
      ensures src < heap.n == |old(heap.liveBytes)| == |old(heap.ends)| == |old(heap.writeOffset)|
      ensures heap.liveBytes == old(heap.liveBytes)[src := 0] && heap.ends == old(heap.ends)[src := 0]
      ensures heap.writeOffset == old(heap.writeOffset)[src := 0]
    {
      hide SegTiled, ListsOk, Heap.Sorted, Heap.TtlOk, SortedAlong, Heap.SegsOk, Linked, NoDup;
      MergeNext(s, src, j, m);
      ghost var q := heap.lists.chains[j.b];
      heap.Release(src, |j.pre| + 1);
      assert Without(q, |j.pre| + 1) == j.Chain(s, m + 1);
    }

    /** Merge the first segment; the merged segment takes its place in the list. */
    method MergeFirst(s: nat, src: nat, keep: Loc -> bool, ghost j: Job)
      requires MergeLists(s, j, 0) && MergeKeys(s, j, 0) && j.qs[0] == src && keep == j.keep
      requires heap.createAt[s] == heap.createAt[src] && heap.ttl[s] == heap.ttl[src]
      modifies `table, `chains, heap`nLive, heap`liveBytes, heap`deleted
      modifies heap`cells, heap`writeOffset, heap`ends, heap`links, heap`lists, heap`accessible
      ensures MergeLists(s, j, 1) && MergeKeys(s, j, 1)
    {
      hide Leveled, OnlyInto, Passes, UsedIfFilled, Filling, Job.Ok, MergeLists, MergeKeys, Merged;
      hide World.Sound, World.Look, TableOk, MarksOk, Vacant, Progress, SegTiled, SameLooks, Waiting, Heap.Inv;
      MergeShaped(s, j, 0);
      MergeNext(s, src, j, 0);
      MergeCopy(s, src, keep, j, 0);
      MergeShaped(s, j, 0);
      MergedMore(j.qs, 0);
      ghost var w := W();
      UsedIfFilledIs(s);
      MergeSwap(s, src, j);
      MergeShaped(s, j, 1);
      assert W() == w;
      SameLooksSelf(w);
      ProgressSame(j.w0, w, w, Done(Merged(j.qs, 0) + {src}, src, 0), 0, j.P(s, heap.segSize));
      FirstKeys(s, j);
    }

    lemma UsedIfFilledIs(s: nat)
      requires IndexOk() && s < heap.n && Filling(s, heap.cells, heap.ends, heap.writeOffset) && UsedIfFilled(s)
      ensures heap.Shaped() && SegTiled(heap.cells[s], heap.segSize, heap.ends[s], heap.ends[s])
      ensures heap.writeOffset[s] == heap.ends[s] && W().Sound() && (heap.ends[s] > 0 ==> Inhabited(W(), s))
    {
      hide World.Sound, TableOk, MarksOk, SegTiled;
    }

    /** The keys when the first segment is merged. */
    lemma FirstKeys(s: nat, j: Job)
      requires IndexOk() && s < heap.n && j.Ok(heap.n) && 0 <= j.qs[0] && Vacant(W(), j.qs[0])
      requires SegTiled(heap.cells[s], heap.segSize, heap.ends[s], heap.ends[s]) && heap.writeOffset[s] == heap.ends[s]
      requires heap.ends[s] > 0 ==> Inhabited(W(), s)
      requires Passes(s, j) && OnlyInto(s, j) && Leveled(s, j, 1)
      requires j.w0.Sound() && Progress(j.w0, W(), Done(Merged(j.qs, 1), 0, 0), j.P(s, heap.segSize))
      ensures MergeKeys(s, j, 1)
    {
      hide World.Sound, World.Look, TableOk, MarksOk, Vacant, Progress, SegTiled, Inhabited, Leveled, OnlyInto,
        Passes;
    }

    /** Merge a further segment and free it. */
    method MergeFurther(s: nat, src: nat, keep: Loc -> bool, ghost j: Job, ghost m: nat)
      requires MergeLists(s, j, m) && MergeKeys(s, j, m) && 0 < m < |j.qs| && j.qs[m] == src && keep == j.keep
      modifies `table, `chains, heap`nLive, heap`liveBytes, heap`deleted
      modifies heap`cells, heap`writeOffset, heap`ends, heap`links, heap`lists, heap`accessible
      ensures MergeLists(s, j, m + 1) && MergeKeys(s, j, m + 1)
    {
      hide Job.Based, Level, TiledAll;
      hide World.Sound, World.Look, TableOk, MarksOk, Inhabited, Vacant, Inherits, Progress, SegTiled, MergeLists,
        Passes;
      MergeNext(s, src, j, m);
      MergeCopy(s, src, keep, j, m);
      MergedMore(j.qs, m);
      ghost var w := W();
      ghost var w' := w.(ends := w.ends[src := 0]);
      SoundEmptied(w, src, w');
      MergeApart(s, j, m);
      MergeFree(s, src, j, m);
      MergeShaped(s, j, m + 1);
      assert W() == w';
      ProgressSame(j.w0, w, w', Done(Merged(j.qs, m) + {src}, src, 0), 0, j.P(s, heap.segSize));
      InheritsSelf(w.t, s);
      VacantInherits(w, w', j.qs[0], s);
      InhabitedSame(w, w', s);
    }

    /** The merge takes a segment from the reserve. Nothing has happened to the keys. */
    method MergeStart(src: nat, ghost j: Job) returns (s: nat)
      requires heap.Inv() && IndexOk() && j.Ok(heap.n) && j.qs[0] == src && heap.links.nFree > 0
      requires j.Based(heap.segSize)
      requires j.lists == heap.lists.chains && j.nFree == heap.links.nFree && j.w0 == W()
      requires heap.FilledBut(-1) && forall t :: 0 <= t < heap.n ==> heap.lists.owner[t] != HELD
      requires forall t :: 0 <= t < heap.n && t in j.qs ==> !heap.evictable[t] && heap.wref[t] == 0
      requires forall t :: 0 <= t < heap.n && heap.lists.owner[t] >= 0 && t !in j.qs ==> heap.evictable[t]
      modifies heap`links, heap`lists, heap`writeOffset, heap`liveBytes, heap`nLive, heap`createAt, heap`ttl
      modifies heap`accessible, heap`ends
      ensures s < heap.n && src < heap.n == |heap.createAt| == |heap.ttl|
      ensures heap.createAt[s] == heap.createAt[src] && heap.ttl[s] == heap.ttl[src]
      ensures MergeLists(s, j, 0) && MergeKeys(s, j, 0) && heap.writeOffset[s] == 0
    {
      hide Job.Based, MergeLists, MergeKeys, Job.Ok;
      hide World.Sound, World.Look, TableOk, MarksOk, SameLooks, Waiting, Heap.Inv, Vacant;
      ghost var w := W();
      s := MergeTake(src, j);
      EmptyVacant(w, s);
      VacantIffZero(w, s);
      ghost var w' := w.(at := heap.createAt, ttl := heap.ttl);
      SoundAged(w, s, heap.createAt, heap.ttl, w');
      assert W() == w';
      KeysAtFirst(s, j);
    }

    /** A segment from the reserve, with the age and ttl of the first one to merge. */
    method MergeTake(src: nat, ghost j: Job) returns (s: nat)
      requires heap.Inv() && j.Ok(heap.n) && j.qs[0] == src && heap.links.nFree > 0
      requires j.lists == heap.lists.chains && j.nFree == heap.links.nFree
      requires heap.FilledBut(-1) && forall t :: 0 <= t < heap.n ==> heap.lists.owner[t] != HELD
      requires forall t :: 0 <= t < heap.n && t in j.qs ==> !heap.evictable[t] && heap.wref[t] == 0
      requires forall t :: 0 <= t < heap.n && heap.lists.owner[t] >= 0 && t !in j.qs ==> heap.evictable[t]
      modifies heap`links, heap`lists, heap`writeOffset, heap`liveBytes, heap`nLive, heap`createAt, heap`ttl
      modifies heap`accessible, heap`ends
      ensures MergeLists(s, j, 0) && heap.Shaped() && s < heap.n && src < heap.n && heap.writeOffset[s] == 0
      ensures heap.ends == old(heap.ends) && heap.ends[s] == 0
      ensures heap.nLive == old(heap.nLive)[s := 0] && heap.liveBytes == old(heap.liveBytes)[s := 0]
      ensures heap.createAt == old(heap.createAt)[s := old(heap.createAt[src])]
      ensures heap.ttl == old(heap.ttl)[s := old(heap.ttl[src])] && src != s
      ensures forall i :: 0 <= i < |j.qs| ==> 0 <= j.qs[i] < heap.n && heap.ends[j.qs[i]] > 0
    {
      hide SegTiled, ListsOk, Heap.Sorted, Heap.TtlOk, SortedAlong, Linked;
      ghost var q := heap.lists.chains[j.b];
      assert q[|j.pre|] == src;
      ChainLinked(heap.links, heap.lists, j.b);
      s := heap.TakeForMerge(src);
      TakenApart(old(heap.links), old(heap.lists), j.b, s);
      StartFilled(s, j, old(heap.lists), old(heap.ends));
      assert heap.ends == old(heap.ends);
    }

    /** What has become of the keys when a merge begins: nothing. */
    lemma KeysAtFirst(s: nat, j: Job)
      requires IndexOk() && s < heap.n && j.Ok(heap.n) && j.Based(heap.segSize) && 0 <= j.qs[0] < heap.n && j.qs[0] != s
      requires heap.writeOffset[s] == heap.ends[s] == 0
      requires |j.w0.at| == |j.w0.ttl| == |j.w0.mem| == |j.w0.ends| == heap.n
      requires j.w0.Sound() && Vacant(j.w0, s) && SameLooks(j.w0, W()) && pending == j.w0.pending
      requires heap.cells == j.w0.mem && heap.ends == j.w0.ends
      requires heap.createAt == j.w0.at[s := j.w0.at[j.qs[0]]] && heap.ttl == j.w0.ttl[s := j.w0.ttl[j.qs[0]]]
      requires forall i :: 0 <= i < |j.qs| ==> 0 <= j.qs[i] < heap.n && heap.ends[j.qs[i]] > 0
      ensures MergeKeys(s, j, 0)
    {
      hide World.Sound, World.Look, TableOk, MarksOk, SameLooks, Waiting, Vacant, Progress, SegTiled, Level;
      StartProgress(j, W(), s, heap.segSize);
      LevelZero(j, heap.segSize);
      TiledNone(heap.cells[s], heap.segSize);
    }

    /** The segments to merge have items; the one they are merged into is not among them. */
    lemma StartFilled(s: nat, j: Job, lists: Spelling, ends: seq<nat>)
      requires heap.Shaped() && s < heap.n && j.Ok(heap.n) && |lists.owner| == |ends| == heap.n
      requires heap.lists.owner == lists.owner[s := HELD] && heap.ends == ends[s := 0] && lists.owner[s] == FREE
      requires forall t :: 0 <= t < heap.n && lists.owner[t] >= 0 ==> ends[t] > 0
      requires Owned(lists.owner, j.lists[j.b], j.b)
      ensures heap.FilledBut(s)
      ensures forall i :: 0 <= i < |j.qs| ==>
                0 <= j.qs[i] < heap.n && j.qs[i] != s && heap.ends[j.qs[i]] == ends[j.qs[i]] > 0
    {
      forall i | 0 <= i < |j.qs| ensures 0 <= j.qs[i] < heap.n && lists.owner[j.qs[i]] == j.b {
        assert j.lists[j.b][|j.pre| + i] == j.qs[i];
      }
    }

    /** Merge segments until the merged one is full enough or none is left. */
    method MergeAll(s: nat, qs: seq<int>, keep: Loc -> bool, ghost j: Job) returns (m: nat)
      requires MergeLists(s, j, 0) && MergeKeys(s, j, 0) && qs == j.qs && keep == j.keep
      requires heap.createAt[s] == heap.createAt[qs[0]] && heap.ttl[s] == heap.ttl[qs[0]]
      requires heap.writeOffset[s] == 0 < stopBytes
      modifies `table, `chains, heap`nLive, heap`liveBytes, heap`deleted
      modifies heap`cells, heap`writeOffset, heap`ends, heap`links, heap`lists, heap`accessible
      ensures 0 < m <= |qs| && MergeLists(s, j, m) && MergeKeys(s, j, m)
      ensures j.Based(heap.segSize) && m == Needed(j.w0, heap.segSize, keep, qs, stopBytes, 0)
    {
      hide MergedTo, MergeLists, MergeKeys, Job.Based, Job.Ok, Needed, Level, Heap.Inv;
      MergedToFirst(s, j);
      m := 0;
      while heap.writeOffset[s] < stopBytes && m < |qs|
        invariant m <= |qs| && MergedTo(s, j, m) && |heap.writeOffset| == heap.n
        invariant m == 0 ==> heap.writeOffset[s] < stopBytes
        decreases |qs| - m
      {
        MergeStep(s, qs[m], keep, j, m);
        m := m + 1;
      }
      MergedToNeeded(s, j, m);
    }

    /** The first m segments are merged, and the merged one was not full enough before. */
    ghost predicate MergedTo(s: nat, j: Job, m: nat)
      reads this, heap
    {
      && s < heap.n && MergeLists(s, j, m) && MergeKeys(s, j, m) && heap.Shaped() && m <= |j.qs|
      && j.w0.Sound() && TiledAll(j.w0, j.qs) && j.Based(heap.segSize)
      && heap.writeOffset[s] == Level(j.w0, heap.segSize, j.keep, j.qs, m)
      && (forall i :: 0 <= i < m ==> Level(j.w0, heap.segSize, j.keep, j.qs, i) < stopBytes)
      && (m == 0 ==>
            0 <= j.qs[0] < heap.n && heap.createAt[s] == heap.createAt[j.qs[0]] && heap.ttl[s] == heap.ttl[j.qs[0]])
    }

    lemma MergedToFirst(s: nat, j: Job)
      requires MergeLists(s, j, 0) && MergeKeys(s, j, 0) && heap.writeOffset[s] == 0
      requires heap.createAt[s] == heap.createAt[j.qs[0]] && heap.ttl[s] == heap.ttl[j.qs[0]]
      ensures MergedTo(s, j, 0) && s < |heap.writeOffset| == heap.n && |j.qs| > 0
      ensures forall i :: 0 <= i < |j.qs| ==> 0 <= j.qs[i]
    {
      hide MergeLists, MergeKeys, Level, TiledAll, NoDup, Job.Based, Heap.Inv;
      MergeShaped(s, j, 0);
      MergeLevel(s, j, 0);
      MergeNext(s, j.qs[0], j, 0);
    }

    lemma MergedToNeeded(s: nat, j: Job, m: nat)
      requires MergedTo(s, j, m) && (m < |j.qs| ==> heap.writeOffset[s] >= stopBytes)
      ensures MergeLists(s, j, m) && MergeKeys(s, j, m) && j.Based(heap.segSize)
      ensures j.w0.Sound() && TiledAll(j.w0, j.qs) && m == Needed(j.w0, heap.segSize, j.keep, j.qs, stopBytes, 0)
    {
      hide MergeLists, MergeKeys, Level, TiledAll, Needed;
      NeededIs(j.w0, heap.segSize, j.keep, j.qs, stopBytes, m);
    }

    /** Merge one more segment. */
    method MergeStep(s: nat, src: nat, keep: Loc -> bool, ghost j: Job, m: nat)
      requires MergedTo(s, j, m) && m < |j.qs| && j.qs[m] == src && keep == j.keep && heap.writeOffset[s] < stopBytes
      modifies `table, `chains, heap`nLive, heap`liveBytes, heap`deleted
      modifies heap`cells, heap`writeOffset, heap`ends, heap`links, heap`lists, heap`accessible
      ensures MergedTo(s, j, m + 1) && |heap.writeOffset| == heap.n
    {
      hide MergeLists, MergeKeys, Level, TiledAll, Job.Based, Job.Ok;
      if m == 0 {
        MergeFirst(s, src, keep, j);
      } else {
        MergeFurther(s, src, keep, j, m);
      }
      MergeShaped(s, j, m + 1);
      MergeLevel(s, j, m + 1);
    }

    /** The merged segment is filled up to the level of those merged. */
    lemma MergeLevel(s: nat, j: Job, m: nat)
      requires MergeKeys(s, j, m)
      ensures s < heap.n == |heap.writeOffset| == |heap.ends|
      ensures j.w0.Sound() && j.Based(heap.segSize) && TiledAll(j.w0, j.qs)
      ensures heap.writeOffset[s] == heap.ends[s] == Level(j.w0, heap.segSize, j.keep, j.qs, m)
      ensures heap.ends[s] > 0 ==> Inhabited(W(), s)
    {
      hide World.Sound, World.Look, TableOk, MarksOk, Vacant, Progress, SegTiled, Level, TiledSeg;
    }

    /** Nothing was worth keeping: the merged segment is free again, too. */
    method MergeNone(s: nat, ghost j: Job)
      requires MergeLists(s, j, |j.qs|) && MergeKeys(s, j, |j.qs|) && heap.liveBytes[s] <= 8
      modifies heap`links, heap`lists, heap`accessible, heap`writeOffset, heap`liveBytes, heap`ends
      ensures Passes(s, j) && OnlyInto(s, j)
      ensures heap.QuietBut(j.qs[0]) && IndexOk() && Vacant(W(), j.qs[0])
      ensures heap.lists.chains == j.lists[j.b := j.pre + j.post]
      ensures heap.links.nFree == j.nFree + |j.qs| - 1 && heap.FilledBut(-1)
      ensures s < heap.n && j.w0.Sound() && Progress(j.w0, W(), Done(Merged(j.qs, |j.qs|), 0, 0), j.P(s, heap.segSize))
    {
      hide Leveled, Job.Based, Level, Passes, NoDup, InRange;
      hide World.Sound, World.Look, TableOk, MarksOk, Vacant, Inhabited, Progress, SegTiled, ListsOk, Heap.Sorted,
        Heap.TtlOk;
      hide SortedAlong, Linked;
      ghost var w := W();
      FewBytesVacant(w, s);
      ghost var q := heap.lists.chains[j.b];
      MergePlace(s, j, |j.qs|);
      SoundEmptied(w, s, w);
      heap.Release(s, |j.pre|);
      assert Without(q, |j.pre|) == j.pre + j.post;
      assert W() == w;
    }

    /** Clear what lies behind the items of a segment. */
    method Seal(s: nat, off: nat)
      requires IndexOk() && s < heap.n && off == heap.ends[s]
      requires SegTiled(heap.cells[s], heap.segSize, off, off)
      modifies heap`cells
      ensures IndexOk() && heap.cells == old(heap.cells)[s := heap.cells[s]]
      ensures SegTiled(heap.cells[s], heap.segSize, off, off)
      ensures forall wo :: wo > heap.segSize ==> SegTiled(heap.cells[s], heap.segSize, wo, off)
      ensures SameLooks(old(W()), W())
    {
      hide World.Sound, World.Look, TableOk, MarksOk, SegTiled;
      ghost var w := W();
      ghost var w' := w.(mem := w.mem[s := ZeroFrom(w.mem[s], w.ends[s])]);
      SoundSealed(w, s, heap.segSize, w');
      heap.cells := heap.cells[s := ZeroFrom(heap.cells[s], off)];
      assert W() == w';
    }

    /** The segments not merged are still in the list, behind the merged one. */
    lemma MergeRest(s: nat, j: Job, m: nat, i: nat)
      requires MergeLists(s, j, m) && 0 < m <= i < |j.qs|
      ensures 0 <= j.qs[i] < heap.n && heap.lists.owner[j.qs[i]] >= 0
    {
      hide SegTiled, ListsOk, Heap.Sorted, Heap.TtlOk, SortedAlong, Linked;
      ChainLinked(heap.links, heap.lists, j.b);
      assert heap.lists.chains[j.b][|j.pre| + 1 + (i - m)] == j.qs[i];
    }

    /** What was locked for the merge and not merged may be evicted again. */
    method MergeUnlock(s: nat, qs: seq<int>, m: nat, ghost j: Job)
      requires 0 < m <= |qs| && qs == j.qs && MergeLists(s, j, m)
      modifies heap`evictable
      ensures heap.Inv() && 0 <= j.qs[0] < heap.n && s < heap.n
      ensures forall t :: 0 <= t < heap.n && heap.lists.owner[t] >= 0 && t != s ==> heap.evictable[t]
    {
      hide SegTiled, ListsOk, Heap.Sorted, Heap.TtlOk, SortedAlong, Linked;
      forall i | m <= i < |qs| ensures 0 <= qs[i] < heap.n && heap.lists.owner[qs[i]] >= 0 {
        MergeRest(s, j, m, i);
      }
      for i := m to |qs|
        invariant |heap.evictable| == heap.n
        invariant forall t :: 0 <= t < heap.n && heap.evictable[t] ==> heap.lists.owner[t] >= 0
        invariant forall t :: 0 <= t < heap.n && old(heap.evictable[t]) ==> heap.evictable[t]
        invariant forall k :: m <= k < i ==> heap.evictable[qs[k]]
      {
        heap.evictable := heap.evictable[qs[i] := true];
      }
      forall t | 0 <= t < heap.n && heap.lists.owner[t] >= 0 && t != s && t in qs ensures heap.evictable[t] {
        var k :| 0 <= k < |qs| && qs[k] == t;
      }
    }

    /** Clear what lies behind the items of the merged segment. */
    method MergeSeal(s: nat, ghost j: Job, ghost m: nat)
      requires 0 < m <= |j.qs| && MergeLists(s, j, m) && MergeKeys(s, j, m)
      modifies heap`cells
      ensures MergeLists(s, j, m) && IndexOk() && Vacant(W(), j.qs[0]) && Passes(s, j) && OnlyInto(s, j)
      ensures s < heap.n && j.w0.Sound() && Progress(j.w0, W(), Done(Merged(j.qs, m), 0, 0), j.P(s, heap.segSize))
    {
      hide Leveled, Job.Based, Level, Passes, NoDup, InRange;
      hide World.Sound, World.Look, TableOk, MarksOk, Vacant, Inhabited, Progress, SegTiled, ListsOk, Heap.Sorted,
        Heap.TtlOk, Waiting, SameLooks;
      hide SortedAlong, Linked;
      ghost var w := W();
      if heap.writeOffset[s] < heap.segSize {
        Seal(s, heap.writeOffset[s]);
        ProgressSame(j.w0, w, W(), Done(Merged(j.qs, m), 0, 0), 0, j.P(s, heap.segSize));
        InheritsSelf(w.t, s);
        VacantInherits(w, W(), j.qs[0], s);
      }
    }

    /** The merged segment is closed, and what was not merged may be evicted again. */
    method MergeKept(s: nat, qs: seq<int>, m: nat, ghost j: Job)
      requires 0 < m <= |qs| && qs == j.qs && MergeLists(s, j, m) && MergeKeys(s, j, m) && heap.ends[s] > 0
      modifies heap`cells, heap`evictable
      ensures heap.QuietBut(j.qs[0]) && IndexOk() && Vacant(W(), j.qs[0]) && heap.FilledBut(-1)
      ensures Passes(s, j) && OnlyInto(s, j)
      ensures s < heap.n && j.w0.Sound() && Progress(j.w0, W(), Done(Merged(j.qs, m), 0, 0), j.P(s, heap.segSize))
    {
      hide MergeKeys, Passes, OnlyInto, NoDup, InRange, Merged;
      hide World.Sound, World.Look, TableOk, MarksOk, Vacant, Inhabited, Progress, SegTiled, ListsOk, Heap.Sorted,
        Heap.TtlOk, Waiting, Heap.SegsOk;
      hide SortedAlong, Linked;
      MergeSeal(s, j, m);
      MergePlace(s, j, m);
      MergeUnlock(s, qs, m, j);
      SetEvictable(s);
    }

    /** A linked segment may be evicted. */
    method SetEvictable(s: nat)
      requires heap.Inv() && s < heap.n && heap.lists.owner[s] >= 0
      modifies heap`evictable
      ensures heap.Inv() && heap.evictable == old(heap.evictable)[s := true]
    {
      hide SegTiled, ListsOk, Heap.Sorted, Heap.TtlOk;
      heap.evictable := heap.evictable[s := true];
    }

    /**
     * The merge is over: m of the segments qs were merged, and if any item was kept, segment s
     * stands for them. The first one merged is held for the caller's use and nothing refers to it.
     */
    ghost predicate MergeOver(s: nat, j: Job, m: nat, kept: bool)
      reads this, heap
    {
      && j.Ok(heap.n) && s < heap.n && 0 < m <= |j.qs| && heap.FilledBut(-1)
      && heap.QuietBut(j.qs[0]) && IndexOk() && Vacant(W(), j.qs[0])
      && heap.lists.chains == j.lists[j.b := j.pre + (if kept then [s] + j.qs[m..] else []) + j.post]
      && heap.links.nFree == j.nFree + m - (if kept then 2 else 1)
      && j.w0.Sound() && j.Based(heap.segSize) && m == Needed(j.w0, heap.segSize, j.keep, j.qs, stopBytes, 0)
      && (kept <==> Level(j.w0, heap.segSize, j.keep, j.qs, m) > 0) && (!kept ==> m == |j.qs|)
      && Passes(s, j) && OnlyInto(s, j) && Progress(j.w0, W(), Done(Merged(j.qs, m), 0, 0), j.P(s, heap.segSize))
    }

    /** Finish a merge, and say which segment of the list the next one should begin with. */
    method MergeFinish(s: nat, qs: seq<int>, m: nat, after: int, ghost j: Job) returns (next: int, kept: bool)
      requires 0 < m <= |qs| && qs == j.qs && MergeLists(s, j, m) && MergeKeys(s, j, m) && after == j.post[0]
      requires j.Based(heap.segSize) && m == Needed(j.w0, heap.segSize, j.keep, qs, stopBytes, 0) && stopBytes > 0
      modifies heap`links, heap`lists, heap`accessible, heap`writeOffset, heap`liveBytes, heap`ends
      modifies heap`cells, heap`evictable
      ensures MergeOver(s, j, m, kept) && next == (if kept then qs[m..] + j.post else j.post)[0]
    {
      hide Leveled, Job.Based, Level, Passes, NoDup, InRange;
      hide World.Sound, World.Look, TableOk, MarksOk, Vacant, Progress, Inhabited, SegTiled, ListsOk, Heap.Sorted,
        Heap.TtlOk, Heap.SegsOk;
      hide SortedAlong, Linked, NoDup, InRange;
      MergePlace(s, j, m);
      MergeLevel(s, j, m);
      if heap.liveBytes[s] <= 8 {
        FewBytesVacant(W(), s);
        MergeNone(s, j);
        assert j.pre + [] + j.post == j.pre + j.post;
        next, kept := after, false;
      } else {
        BytesFilled(W(), s);
        MergeKept(s, qs, m, j);
        assert j.Chain(s, m) == j.pre + [s] + j.qs[m..] + j.post;
        MergedNext(s, j, m);
        next, kept := heap.links.next[s], true;
      }
    }

    /**
     * Merge segments qs, which follow each other in a list and are locked against eviction, into
     * one from the reserve. If there is none, the code goes on with segment -1; here it stops.
     */
    method MergeSegs(qs: seq<int>, keep: Loc -> bool, ghost j: Job)
      returns (ok: bool, next: int, ghost s: nat, ghost m: nat, ghost kept: bool)
      requires heap.Inv() && IndexOk() && j.Ok(heap.n) && stopBytes > 0 && j.Based(heap.segSize)
      requires qs == j.qs && keep == j.keep
      requires j.lists == heap.lists.chains && j.nFree == heap.links.nFree && j.w0 == W()
      requires heap.FilledBut(-1) && forall t :: 0 <= t < heap.n ==> heap.lists.owner[t] != HELD
      requires forall t :: 0 <= t < heap.n && t in qs ==> !heap.evictable[t] && heap.wref[t] == 0
      requires forall t :: 0 <= t < heap.n && heap.lists.owner[t] >= 0 && t !in qs ==> heap.evictable[t]
      modifies `table, `chains, heap`nLive, heap`liveBytes, heap`deleted
      modifies heap`cells, heap`writeOffset, heap`ends, heap`links, heap`lists, heap`accessible, heap`evictable
      modifies heap`createAt, heap`ttl
      ensures ok <==> old(heap.links.nFree) != 0
      ensures !ok ==> unchanged(heap) && table == old(table) && chains == old(chains)
      ensures ok ==> MergeOver(s, j, m, kept) && next == (if kept then qs[m..] + j.post else j.post)[0]
    {
      hide IndexOk, ListsOk, MergeOver, MergeLists, MergeKeys, Heap.Sorted, Heap.TtlOk, Heap.SegsOk, Job.Based,
        Needed;
      LastNext(j);
      FreeCount(heap.links, heap.lists);
      ok, next, s, m, kept := false, -1, 0, 0, false;
      var after := heap.links.next[qs[|qs| - 1]];
      if heap.links.nFree == 0 {
        return;
      }
      var s' := MergeStart(qs[0], j);
      var m' := MergeAll(s', qs, keep, j);
      var kept';
      next, kept' := MergeFinish(s', qs, m', after, j);
      ok, s, m, kept := true, s', m', kept';
    }

    /** Behind the merged segment come those not merged, and the rest of the list. */
    lemma MergedNext(s: nat, j: Job, m: nat)
      requires heap.Inv() && j.Ok(heap.n) && m <= |j.qs| && heap.lists.chains[j.b] == j.pre + [s] + j.qs[m..] + j.post
      ensures s < heap.n && heap.links.next[s] == (j.qs[m..] + j.post)[0]
    {
      hide Heap.Sorted, Heap.TtlOk, Heap.SegsOk, ListsOk;
      var q := heap.lists.chains[j.b];
      ChainLinked(heap.links, heap.lists, j.b);
      NextIs(heap.links.prev, heap.links.next, q, |j.pre|);
      assert q[|j.pre|] == s && q[|j.pre| + 1] == (j.qs[m..] + j.post)[0];
    }

    /** Behind the last segment to merge comes the rest of the list. */
    lemma LastNext(j: Job)
      requires heap.Inv() && j.Ok(heap.n) && j.lists == heap.lists.chains
      ensures heap.links.next[j.qs[|j.qs| - 1]] == j.post[0]
    {
      hide Heap.Sorted, Heap.TtlOk, Heap.SegsOk, ListsOk;
      var q, i := heap.lists.chains[j.b], |j.pre| + |j.qs| - 1;
      ChainLinked(heap.links, heap.lists, j.b);
      NextIs(heap.links.prev, heap.links.next, q, i);
      assert q[i] == j.qs[|j.qs| - 1] && q[i + 1] == j.post[0];
    }

    /** Lock the segments from position p of bucket b's list on, as long as they may be evicted. */
    method PrepSegToMerge(start: nat, ghost b: nat, ghost p: nat) returns (qs: seq<int>)
      requires Valid() && b < N_BUCKET && p < |heap.lists.chains[b]| && heap.lists.chains[b][p] == start
      requires ThreeAt(heap.lists.chains[b], heap.Evictables(), p)
      modifies heap`evictable
      ensures heap.Inv() && Min(3, nMaxMerge) <= |qs| <= nMaxMerge
      ensures var q := heap.lists.chains[b];
              && p + |qs| < |q| && qs == q[p..p + |qs|]
              && |qs| == RunLength(q, old(heap.Evictables()), p, nMaxMerge)
      ensures forall t :: 0 <= t < heap.n && t in qs ==> !heap.evictable[t] && heap.wref[t] == 0
      ensures forall t :: 0 <= t < heap.n && t in qs ==> old(heap.Movable(t))
      ensures forall t :: 0 <= t < heap.n && t !in qs ==> heap.evictable[t] == old(heap.evictable[t])
    {
      hide IndexOk, SegTiled, ListsOk, Heap.Sorted, Heap.TtlOk, Heap.SegsOk, InRange1, Linked, RunLength, NoDup,
        InRange;
      ChainLinked(heap.links, heap.lists, b);
      RunOfThree(heap.lists.chains[b], heap.Evictables(), p, nMaxMerge);
      var locked;
      qs, locked := LockRun(heap.links.next, heap.Evictables(), heap.evictable, start, nMaxMerge,
                            heap.links.prev, heap.lists.chains[b], p);
      Lock(locked);
    }

    /** Some segments may not be evicted any more. */
    method Lock(locked: seq<bool>)
      requires heap.Inv() && |locked| == heap.n
      requires forall t :: 0 <= t < heap.n && locked[t] ==> heap.evictable[t]
      modifies heap`evictable
      ensures heap.Inv() && heap.evictable == locked
    {
      hide SegTiled, ListsOk, Heap.Sorted, Heap.TtlOk;
      heap.evictable := locked;
    }

    /** Three segments in a row that may be evicted, from segment `from` on; -1 if there are none. */
    method FindRun(from: nat) returns (r: int, ghost b: nat, ghost p: nat)
      requires Valid() && from < heap.n
      ensures heap.Site().Fits(heap.n) && r == heap.Site().RunFrom(from, heap.matureTime)
      ensures r != -1 ==> 0 <= r < heap.n && b < N_BUCKET && p < |heap.lists.chains[b]| && heap.lists.chains[b][p] == r
      ensures r != -1 ==> ThreeAt(heap.lists.chains[b], heap.Evictables(), p)
    {
      hide IndexOk, SegTiled, ListsOk, Heap.Sorted, Heap.TtlOk, InRange1, Linked, NoDup, FirstThree, IndexOf,
        Site.RunFrom;
      heap.SiteFits();
      ghost var q, p0 := InSomeList(heap.links, heap.lists, from);
      var ok := heap.Evictables();
      r := FindThree(heap.links.next, ok, from, heap.links.prev, q, p0);
      RunFromIs(heap.Site(), from, heap.matureTime, q, p0);
      p := FirstThree(q, ok, p0);
      b := 0;
      if r != -1 {
        b := heap.lists.owner[r];
      }
    }

    /**
     * A merge, from a store w0 with lists and headers st, of the run of segments at position how.p
     * of bucket how.b's list: how many were merged, whether something was kept, and what that means
     * for the free count. It takes one segment from the reserve and gives back all it merged but the
     * first, and the merged one, too, if nothing was kept.
     */
    ghost predicate MergeIs(w0: World, st: Site, mature: nat, keep: Loc -> bool, how: Origin, nFree: int) {
      && how.Merge? && st.Fits(|st.wref|) && how.b < N_BUCKET && how.p < |st.lists.chains[how.b]|
      && var q := st.lists.chains[how.b];
         var qs := q[how.p..how.p + RunLength(q, st.Evictables(mature), how.p, nMaxMerge)];
         && w0.Sound() && TiledAll(w0, qs) && ThreeAt(q, st.Evictables(mature), how.p)
         && how.m == Needed(w0, heap.segSize, keep, qs, stopBytes, 0) && how.gone == Merged(qs, how.m)
         && (how.into != -1 <==> Level(w0, heap.segSize, keep, qs, how.m) > 0)
         && nFree == st.links.nFree + how.m - (if how.into != -1 then 2 else 1)
    }

    /** A merge does not look at the end of a list, so closing that before makes no difference. */
    lemma MergeIsSame(w: World, w': World, st: Site, t: nat, mature: nat, keep: Loc -> bool, how: Origin, nFree: int)
      requires w.Sound() && w'.Sound() && SameLooks(w, w') && MergeIs(w', st, mature, keep, how, nFree)
      requires st.Fits(|w.mem|) && t < |w.mem| == |w'.mem| && st.links.next[t] == -1
      requires w' == w.(mem := w'.mem) && w'.mem == w.mem[t := w'.mem[t]]
      ensures MergeIs(w, st, mature, keep, how, nFree)
    {
      hide World.Look, Level, Needed, RunLength, Waiting, Merged, TiledSeg;
      var q := st.lists.chains[how.b];
      var qs := q[how.p..how.p + RunLength(q, st.Evictables(mature), how.p, nMaxMerge)];
      forall i | 0 <= i < |qs| ensures 0 <= qs[i] < |w.mem| && qs[i] != t {
        assert qs[i] == q[how.p + i];
      }
      NeededSame(w', w, heap.segSize, keep, qs, stopBytes);
    }

    /**
     * The free count falls by a merge just when the first segment alone fills the merged one as far
     * as required. It never falls by more than one.
     */
    lemma FreeFalls(w0: World, st: Site, mature: nat, keep: Loc -> bool, how: Origin, nFree: int)
      requires MergeIs(w0, st, mature, keep, how, nFree) && stopBytes > 0 && nMaxMerge > 1
      ensures nFree >= st.links.nFree - 1
      ensures var q := st.lists.chains[how.b];
              var qs := q[how.p..how.p + RunLength(q, st.Evictables(mature), how.p, nMaxMerge)];
              |qs| > 1 && (nFree < st.links.nFree <==> Level(w0, heap.segSize, keep, qs, 1) >= stopBytes)
    {
      hide World.Sound, Needed, RunLength, TiledSeg, FillTo;
      var q := st.lists.chains[how.b];
      RunOfThree(q, st.Evictables(mature), how.p, nMaxMerge);
      var qs := q[how.p..how.p + RunLength(q, st.Evictables(mature), how.p, nMaxMerge)];
      assert Level(w0, heap.segSize, keep, qs, 0) == 0;
    }

    /**
     * Merge a run of segments from position p of bucket b's list on. The first of them is held
     * for the caller's use; keys were kept or lost, none changed its meaning. Without a segment to
     * copy to, nothing has happened but that segments were locked.
     */
    method MergeRun(start: nat, keep: Loc -> bool, ghost b: nat, ghost p: nat)
      returns (ok: bool, next: int, ghost how: Origin)
      requires Valid() && b < N_BUCKET && p < |heap.lists.chains[b]| && heap.lists.chains[b][p] == start
      requires ThreeAt(heap.lists.chains[b], heap.Evictables(), p)
      modifies `table, `chains, heap`nLive, heap`liveBytes, heap`deleted
      modifies heap`cells, heap`writeOffset, heap`ends, heap`links, heap`lists, heap`accessible, heap`evictable
      modifies heap`createAt, heap`ttl
      ensures ok <==> old(heap.links.nFree) != 0
      ensures !ok ==> heap.Inv() && IndexOk() && W() == old(W())
      ensures ok ==> ValidBut(start) && -1 <= next < heap.n && LosesIn(old(W()), W(), Lost(how))
      ensures ok ==> how.Merge? && MergeIs(old(W()), old(heap.Site()), heap.matureTime, keep, how, heap.links.nFree)
      ensures ok ==> heap.lists.chains == AfterMerge(old(heap.lists.chains), how)
      ensures ok ==> MayLose(old(heap.Site()), how, _ => false)
    {
      hide Job.Based, Level, RunLength, Needed, MergeIs, AfterMerge;
      hide World.Sound, World.Look, TableOk, MarksOk, Vacant, SegTiled, ListsOk, Heap.Sorted, Heap.TtlOk;
      hide Heap.SegsOk, InRange1, LosesIn, MergeOver, Job.Ok, InOneOrder, Merged, Linked, Waiting, ThreeAt,
        Site.Evictables, Heap.Evictables, SortedAlong, NoDup, InRange, Heap.Movable;
      heap.SiteFits();
      ghost var w0, st := W(), heap.Site();
      RunInOrder(b);
      ghost var oks := heap.Evictables();
      var qs := PrepSegToMerge(start, b, p);
      assert W() == w0;
      ghost var j := JobFor(b, p, qs, keep);
      ok, next, how := MergeLocked(qs, keep, j, st, oks, p);
      if ok {
        MergedIn(st.lists.chains[b], p, qs, how.m);
      }
    }

    /** Merge the segments qs, which are locked. */
    method MergeLocked(qs: seq<int>, keep: Loc -> bool, ghost j: Job, ghost st: Site, ghost oks: seq<bool>,
                       ghost p: nat)
      returns (ok: bool, next: int, ghost how: Origin)
      requires heap.Inv() && IndexOk() && j.Ok(heap.n) && stopBytes > 0 && j.Based(heap.segSize) && InOneOrder(j)
      requires qs == j.qs && keep == j.keep && j.nFree == st.links.nFree
      requires j.lists == heap.lists.chains && j.nFree == heap.links.nFree && j.w0 == W()
      requires heap.FilledBut(-1) && forall t :: 0 <= t < heap.n ==> heap.lists.owner[t] != HELD
      requires forall t :: 0 <= t < heap.n && t in qs ==> !heap.evictable[t] && heap.wref[t] == 0
      requires forall t :: 0 <= t < heap.n && heap.lists.owner[t] >= 0 && t !in qs ==> heap.evictable[t]
      requires st.Fits(|st.wref|) && j.b < N_BUCKET && j.lists == st.lists.chains
      requires p < |j.lists[j.b]| && p + |qs| <= |j.lists[j.b]| && qs == j.lists[j.b][p..p + |qs|]
      requires oks == st.Evictables(heap.matureTime) && ThreeAt(j.lists[j.b], oks, p)
      requires |qs| == RunLength(j.lists[j.b], oks, p, nMaxMerge)
      requires j.pre == j.lists[j.b][..p] && j.post == j.lists[j.b][p + |qs|..]
      modifies `table, `chains, heap`nLive, heap`liveBytes, heap`deleted
      modifies heap`cells, heap`writeOffset, heap`ends, heap`links, heap`lists, heap`accessible, heap`evictable
      modifies heap`createAt, heap`ttl
      ensures ok <==> old(heap.links.nFree) != 0
      ensures !ok ==> unchanged(heap) && table == old(table) && chains == old(chains)
      ensures ok ==> heap.QuietBut(qs[0]) && IndexOk() && 0 <= qs[0] < heap.n && Vacant(W(), qs[0])
      ensures ok ==> heap.FilledBut(-1)
      ensures ok ==> -1 <= next < heap.n && j.w0.Sound() && LosesIn(j.w0, W(), Lost(how))
      ensures ok ==> MergeIs(j.w0, st, heap.matureTime, keep, how, heap.links.nFree)
      ensures ok ==> heap.lists.chains == AfterMerge(j.lists, how)
      ensures ok ==> how.Merge? && how.m <= |qs| && Lost(how) == Merged(qs, how.m)
    {
      hide Job.Based, Level, RunLength, Needed, MergeIs, AfterMerge;
      hide World.Sound, World.Look, TableOk, MarksOk, Vacant, SegTiled, ListsOk, Heap.Inv;
      hide LosesIn, MergeOver, Job.Ok, InOneOrder, Merged, Linked, Waiting, ThreeAt, Site.Evictables, Heap.Evictables;
      ghost var s, m, kept;
      ok, next, s, m, kept := MergeSegs(qs, keep, j);
      how := Present;
      if ok {
        MergedRun(s, j, m, kept);
        how := MergeRunIs(s, j, m, kept, st, heap.matureTime, oks, p);
      }
    }

    /** The job of merging the segments qs of bucket b's list. */
    lemma JobFor(b: nat, p: nat, qs: seq<int>, keep: Loc -> bool) returns (j: Job)
      requires heap.Inv() && IndexOk() && b < N_BUCKET && SortedAlong(heap.createAt, heap.lists.chains[b])
      requires forall x :: x in heap.lists.chains[b] ==> 0 <= x < |heap.ttl| && heap.ttl[x] == BucketTtl(b)
      requires 0 < |qs| && p + |qs| < |heap.lists.chains[b]| && qs == heap.lists.chains[b][p..p + |qs|]
      ensures j.Ok(heap.n) && j.b == b && j.lists == heap.lists.chains && j.qs == qs && InOneOrder(j)
      ensures j.nFree == heap.links.nFree && j.w0 == W() && j.keep == keep && j.Based(heap.segSize)
      ensures qs[0] == heap.lists.chains[b][p] && qs[0] in qs
      ensures j.pre == heap.lists.chains[b][..p] && j.post == heap.lists.chains[b][p + |qs|..]
    {
      hide Job.Based, World.Sound, World.Look, TableOk, MarksOk, ListsOk, Heap.Sorted, Heap.TtlOk, Heap.SegsOk,
        Linked, TiledAll;
      ChainLinked(heap.links, heap.lists, b);
      SliceInRange(heap.lists.chains[b], p, qs, heap.n);
      RunTiled(qs);
      j := RunJob(b, p, qs, heap.lists.chains, heap.n, heap.links.nFree, W(), keep, heap.segSize);
      JobInOrder(j);
    }

    /** A finished merge in terms of where it began. */
    lemma MergeRunIs(s: nat, j: Job, m: nat, kept: bool, st: Site, mature: nat, oks: seq<bool>, p: nat)
      returns (how: Origin)
      requires st.Fits(|st.wref|) && j.b < N_BUCKET && j.lists == st.lists.chains && j.nFree == st.links.nFree
      requires p < |j.lists[j.b]| && p + |j.qs| <= |j.lists[j.b]| && j.qs == j.lists[j.b][p..p + |j.qs|]
      requires oks == st.Evictables(mature) && ThreeAt(j.lists[j.b], oks, p)
      requires |j.qs| == RunLength(j.lists[j.b], oks, p, nMaxMerge)
      requires j.pre == j.lists[j.b][..p] && j.post == j.lists[j.b][p + |j.qs|..]
      requires j.w0.Sound() && TiledAll(j.w0, j.qs) && 0 < m <= |j.qs| && (!kept ==> m == |j.qs|)
      requires m == Needed(j.w0, heap.segSize, j.keep, j.qs, stopBytes, 0)
      requires kept <==> Level(j.w0, heap.segSize, j.keep, j.qs, m) > 0
      ensures MergeIs(j.w0, st, mature, j.keep, how, j.nFree + m - (if kept then 2 else 1))
      ensures how.Merge? && how.m == m && Lost(how) == Merged(j.qs, m)
      ensures AfterMerge(j.lists, how) == j.lists[j.b := j.pre + (if kept then [s] + j.qs[m..] else []) + j.post]
    {
      hide World.Sound, World.Look, TiledAll, Level, Needed, Merged, AfterMerge;
      how := Merge(j.b, p, m, if kept then s else -1, Merged(j.qs, m));
      JobAfter(j, p, m, kept, s);
    }

    lemma RunTiled(qs: seq<int>)
      requires heap.Inv() && IndexOk() && InRange(qs, heap.n)
      ensures TiledAll(W(), qs)
    {
      hide World.Sound, World.Look, ListsOk, TableOk, MarksOk, Heap.Sorted, Heap.TtlOk;
    }

    /** The segments of a list share one ttl and are in order of creation. */
    lemma RunInOrder(b: nat)
      requires Valid() && b < N_BUCKET
      ensures SortedAlong(heap.createAt, heap.lists.chains[b])
      ensures forall x :: x in heap.lists.chains[b] ==> 0 <= x < |heap.ttl| && heap.ttl[x] == BucketTtl(b)
    {
      hide IndexOk, SegTiled, ListsOk, InRange1, Linked;
      ChainLinked(heap.links, heap.lists, b);
    }

    /** What a finished merge leaves. */
    lemma MergedRun(s: nat, j: Job, m: nat, kept: bool)
      requires MergeOver(s, j, m, kept) && InOneOrder(j)
      ensures j.Ok(heap.n) && 0 < m <= |j.qs| && heap.FilledBut(-1)
      ensures heap.QuietBut(j.qs[0]) && IndexOk() && Vacant(W(), j.qs[0])
      ensures heap.lists.chains == j.lists[j.b := j.pre + (if kept then [s] + j.qs[m..] else []) + j.post]
      ensures heap.links.nFree == j.nFree + m - (if kept then 2 else 1) && (!kept ==> m == |j.qs|)
      ensures j.w0.Sound() && TiledAll(j.w0, j.qs) && m == Needed(j.w0, heap.segSize, j.keep, j.qs, stopBytes, 0)
      ensures kept <==> Level(j.w0, heap.segSize, j.keep, j.qs, m) > 0
      ensures LosesIn(j.w0, W(), Merged(j.qs, m))
      ensures 0 <= (if kept then j.qs[m..] + j.post else j.post)[0] < heap.n
    {
      hide World.Sound, World.Look, TableOk, MarksOk, Vacant, Progress, Heap.Inv, LosesIn, InOneOrder, Inherited,
        Level, Needed;
      MergedAge(j, m, W(), s);
      ProgressLosesIn(j.w0, W(), Merged(j.qs, m), j.P(s, heap.segSize));
      assert (if kept then j.qs[m..] + j.post else j.post)[0] in j.lists[j.b];
    }

    /** Evict the first segment of bucket b's list, even if it is the last one, too. */
    method ForceEvict(b: nat, s: nat)
      requires Valid() && b < N_BUCKET && heap.lists.chains[b] != [] && heap.lists.chains[b][0] == s
      requires s < heap.n && heap.wref[s] == 0
      modifies `table, `chains, heap`nLive, heap`liveBytes, heap`deleted
      modifies heap`links, heap`lists, heap`accessible, heap`evictable
      ensures ValidBut(s) && LosesIn(old(W()), W(), {s}) && heap.links.nFree == old(heap.links.nFree)
      ensures heap.lists.chains == AfterMerge(old(heap.lists.chains), Forced(b, {s}))
    {
      hide World.Sound, World.Look, TableOk, MarksOk, Vacant, SegTiled, ListsOk, SortedAlong, Linked, InRange1,
        LosesIn;
      hide Heap.Sorted, Heap.TtlOk, Heap.SegsOk, LostAll, Waiting, NoDup, InRange;
      ghost var w, q := W(), heap.lists.chains[b];
      ChainLinked(heap.links, heap.lists, b);
      var ok := RmAllItemOnSeg(s, true, 0);
      LostAllLosesIn(w, W(), s);
      assert Without(q, 0) == q[1..];
    }

    /** What the next search for segments to merge ends with. */
    ghost function Search(b0: nat, tooOld: nat -> bool): Target
      requires heap.Site().Fits(heap.n) && |nextToMerge| == N_BUCKET
      reads `nextToMerge, heap
    {
      Scan(heap.Site(), nextToMerge, b0, 0, heap.matureTime, tooOld)
    }

    /**
     * Free up a segment by merging: go through the TTL buckets from b0 on until one has three
     * segments in a row that may be evicted. A bucket whose first segment is too old for some
     * corner case to have been missed gives up that one instead. Without success, nothing but
     * the age from which segments are evicted has changed, and where searches begin.
     */
    method MergeEvict(b0: nat, tooOld: nat -> bool, keep: Loc -> bool) returns (out: Obtained, ghost how: Origin)
      requires Valid()
      requires forall s :: 0 <= s < heap.n && tooOld(s) ==> heap.wref[s] == 0
      modifies `table, `chains, `nextToMerge, heap`nLive, heap`liveBytes, heap`deleted, heap`matureTime
      modifies heap`cells, heap`writeOffset, heap`ends, heap`links, heap`lists, heap`accessible, heap`evictable
      modifies heap`createAt, heap`ttl
      ensures old(heap.Site()).Fits(heap.n) && |old(nextToMerge)| == N_BUCKET
      ensures out.NoneFound? <==> old(Search(b0, tooOld)).Nothing?
      ensures out.NoReserve? <==> old(Search(b0, tooOld)).Run? && old(heap.links.nFree) == 0
      ensures out.NoneFound? ==> Valid() && W() == old(W()) && heap.Site() == old(heap.Site())
      ensures heap.matureTime == if out.NoneFound? then old(heap.matureTime) / 2 else old(heap.matureTime)
      ensures out.NoneFound? ==> nextToMerge == Restarted(old(heap.Site()), old(nextToMerge))
      ensures out.NoReserve? ==> heap.Inv() && IndexOk() && W() == old(W())
      ensures out.Got? ==> out.seg == old(Search(b0, tooOld)).seg && ValidBut(out.seg)
      ensures out.Got? ==> LosesIn(old(W()), W(), Lost(how))
      ensures out.Got? ==> Came(old(W()), old(heap.Site()), keep, how) && !how.Pool? && !how.Present?
      ensures out.Got? ==> (how.Merge? <==> old(Search(b0, tooOld)).Run?)
      ensures !out.Got? ==> Lost(how) == {}
      ensures out.Got? ==> MayLose(old(heap.Site()), how, tooOld)
    {
      hide Valid, ValidBut, IndexOk, Heap.Inv, LosesIn, Scan, Offer, MergeIs, Begun, From, Came, Restarted,
        Heap.Movable;
      ghost var st, next0, w := heap.Site(), nextToMerge, W();
      ValidFits();
      BegunAtFirst(st, next0, b0);
      how := Present;
      for i := 0 to N_BUCKET + 1
        invariant Valid() && unchanged(heap) && table == old(table) && chains == old(chains)
        invariant |nextToMerge| == N_BUCKET && Begun(st, next0, nextToMerge, b0, i)
        invariant i <= N_BUCKET ==> old(Search(b0, tooOld)) == Scan(st, next0, b0, i, heap.matureTime, tooOld)
        invariant i > N_BUCKET ==> old(Search(b0, tooOld)) == Nothing
      {
        var b := (b0 + i) % N_BUCKET;
        BeginsAt(st, next0, nextToMerge, b0, i);
        ScanStep(st, next0, b0, i, heap.matureTime, tooOld);
        EmptyOffers(st, b, From(st, next0, b0, i), heap.matureTime, tooOld);
        if heap.links.first[b] != -1 {
          out, how := MergeIn(b, tooOld, keep);
          if !out.NoneFound? {
            return;
          }
        }
      }
      RestartedIs(st, next0, nextToMerge, b0);
      HalveMatureTime();
      return NoneFound, Present;
    }

    lemma ValidFits()
      requires Valid()
      ensures heap.Shaped() && IndexOk() && W().Sound() && heap.Site().Fits(heap.n) && |nextToMerge| == N_BUCKET
    {
      hide IndexOk, SegTiled, Heap.Sorted, Heap.TtlOk;
      IndexSound();
      heap.SiteFits();
    }

    /** Free up a segment of bucket b, which has some: by merging, or the first one if it is too old. */
    method MergeIn(b: nat, tooOld: nat -> bool, keep: Loc -> bool) returns (out: Obtained, ghost how: Origin)
      requires Valid() && b < N_BUCKET && heap.Shaped() && heap.links.first[b] != -1
      requires forall s :: 0 <= s < heap.n && tooOld(s) ==> heap.wref[s] == 0
      modifies `table, `chains, `nextToMerge, heap`nLive, heap`liveBytes, heap`deleted
      modifies heap`cells, heap`writeOffset, heap`ends, heap`links, heap`lists, heap`accessible, heap`evictable
      modifies heap`createAt, heap`ttl
      ensures old(heap.Site()).Fits(heap.n) && |old(nextToMerge)| == N_BUCKET
      ensures var o := old(Offer(heap.Site(), b, Start(heap.Site(), nextToMerge, b), heap.matureTime, tooOld));
              && (out.NoneFound? <==> o.Nothing?)
              && (out.NoReserve? <==> o.Run? && old(heap.links.nFree) == 0)
              && (out.Got? ==> out.seg == o.seg && (how.Merge? <==> o.Run?))
      ensures out.NoneFound? ==> Valid() && unchanged(heap) && table == old(table) && chains == old(chains)
      ensures out.NoneFound? ==> nextToMerge == old(nextToMerge)[b := -1] && how.Present?
      ensures out.NoReserve? ==> heap.Inv() && IndexOk() && W() == old(W()) && Lost(how) == {}
      ensures out.Got? ==> ValidBut(out.seg) && LosesIn(old(W()), W(), Lost(how))
      ensures out.Got? ==> Came(old(W()), old(heap.Site()), keep, how) && !how.Pool? && !how.Present?
      ensures out.Got? ==> MayLose(old(heap.Site()), how, tooOld)
    {
      hide Valid, ValidBut, IndexOk, LosesIn, MergeIs, AfterMerge, Site.RunFrom, ThreeAt, Waiting, MayLose, Heap.Inv,
        World.Sound;
      ValidFits();
      FirstIs(b);
      StartInRange(b);
      how := Present;
      var from := if nextToMerge[b] != -1 then nextToMerge[b] else heap.links.first[b];
      ghost var b', p;
      var r;
      r, b', p := FindRun(from);
      if r == -1 {
        MergeFrom(b, -1);
        var first := heap.links.first[b];
        if !tooOld(first) {
          return NoneFound, Present;
        }
        ForceEvict(b, first);
        TooOldLost(old(heap.Site()), b, first, tooOld);
        return Got(first), Forced(b, {first});
      }
      var ok, next;
      ok, next, how := MergeRun(r, keep, b', p);
      if !ok {
        return NoReserve, Present;
      }
      MoreMayLose(old(heap.Site()), how, tooOld);
      MergeFromHeld(b, next, r);
      out := Got(r);
    }

    lemma StartInRange(b: nat)
      requires Valid() && b < N_BUCKET
      ensures |nextToMerge| == N_BUCKET && -1 <= nextToMerge[b] < heap.n
    {
    }

    /** Where the next merge in bucket b is to begin. */
    method MergeFrom(b: nat, next: int)
      requires Valid() && b < N_BUCKET && -1 <= next < heap.n
      modifies `nextToMerge
      ensures Valid() && |old(nextToMerge)| == N_BUCKET && nextToMerge == old(nextToMerge)[b := next]
    {
      hide World.Sound, MarksOk, TableOk, Heap.Inv;
      nextToMerge := nextToMerge[b := next];
    }

    method MergeFromHeld(b: nat, next: int, ghost h: nat)
      requires ValidBut(h) && b < N_BUCKET && -1 <= next < heap.n
      modifies `nextToMerge
      ensures ValidBut(h) && W() == old(W())
    {
      hide World.Sound, MarksOk, TableOk, Heap.Inv;
      nextToMerge := nextToMerge[b := next];
    }

    /** A segment came about as `how` says, and so did the lists. */
    ghost predicate Came(w0: World, st: Site, keep: Loc -> bool, how: Origin)
      reads heap`lists, heap`links, heap`matureTime
    {
      heap.lists.chains == AfterMerge(st.lists.chains, how) && Paid(w0, st, keep, how)
    }

    /** What it did to the free count. */
    ghost predicate Paid(w0: World, st: Site, keep: Loc -> bool, how: Origin)
      reads heap`links, heap`matureTime
    {
      match how
      case Pool => heap.links.nFree == st.links.nFree - 1
      case Merge(_, _, _, _, _) => MergeIs(w0, st, heap.matureTime, keep, how, heap.links.nFree)
      case _ => heap.links.nFree == st.links.nFree
    }

    method HalveMatureTime()
      requires Valid()
      modifies heap`matureTime
      ensures Valid() && W() == old(W()) && heap.matureTime == old(heap.matureTime) / 2
      ensures heap.Site() == old(heap.Site())
    {
      hide World.Sound, MarksOk, TableOk, ListsOk, SegTiled, SortedAlong;
      heap.matureTime := heap.matureTime / 2;
    }

    /** The first segment of a list, if there is one. */
    lemma FirstIs(b: nat)
      requires Valid() && b < N_BUCKET
      ensures var q, f := heap.lists.chains[b], heap.links.first[b];
              if f == -1 then q == [] else 0 <= f < heap.n && q != [] && q[0] == f
    {
      hide IndexOk, SegTiled, ListsOk, Heap.Sorted, Heap.TtlOk, InRange1, Linked;
      ChainLinked(heap.links, heap.lists, b);
    }

    /** A segment from the free pool, if there is one beside the reserve. */
    method TakeFree() returns (s: int)
      requires Valid()
      modifies heap`links, heap`lists
      ensures s == -1 <==> old(heap.links.nFree) == 0 || old(heap.links.nFree) <= heap.nReserved
      ensures s == -1 ==> heap.links == old(heap.links) && heap.lists == old(heap.lists)
      ensures s != -1 ==> s >= 0 && ValidBut(s) && heap.links.nFree == old(heap.links.nFree) - 1
      ensures s != -1 ==> heap.lists.chains == old(heap.lists.chains)
    {
      hide World.Sound, MarksOk, TableOk, ListsOk, SegTiled, SortedAlong, Vacant, InRange1;
      s := heap.SegGetFromFreepool(false);
      if s != -1 {
        EmptyVacant(W(), s);
      }
    }

    /** Reset the segment held. */
    method InitHeld(s: nat)
      requires ValidBut(s)
      modifies heap`links, heap`writeOffset, heap`liveBytes, heap`nLive, heap`createAt, heap`accessible, heap`ends
      ensures ValidBut(s) && heap.links == Cleared(old(heap.links), s)
      ensures heap.ends == old(heap.ends)[s := 0] && heap.writeOffset == old(heap.writeOffset)[s := 0]
      ensures heap.createAt[s] == heap.now && heap.accessible[s] && heap.createAt == old(heap.createAt)[s := heap.now]
      ensures SameLooks(old(W()), W())
    {
      hide World.Sound, World.Look, MarksOk, TableOk, Heap.Inv, Vacant, InRange1, SameLooks;
      ghost var w := W();
      ghost var w' := w.(ends := w.ends[s := 0]);
      SoundEmptied(w, s, w');
      heap.Reset(s);
      ghost var w'' := w'.(at := heap.createAt, ttl := heap.ttl);
      SoundAged(w', s, heap.createAt, heap.ttl, w'');
      SameLooksTrans(w, w', w'');
      assert W() == w'';
    }

    /** Nothing is being written on a segment that is too old at the age required, or will be at a lower one. */
    predicate Unwritten(tooOld: (nat, nat) -> bool)
      reads heap
    {
      forall m: nat, s: nat :: m <= heap.matureTime && s < |heap.wref| && tooOld(m, s) ==> heap.wref[s] == 0
    }

    /** Where the next new segment comes from. */
    ghost function Source(b0: nat, tooOld: (nat, nat) -> bool): Supply
      requires heap.Site().Fits(heap.n) && |nextToMerge| == N_BUCKET
      reads `nextToMerge, heap
    {
      Supplied(heap.Site(), heap.nReserved, nextToMerge, b0, heap.matureTime, tooOld)
    }

    /** A segment from the free pool, or else freed up by merging. */
    method TakeOrEvict(b0: nat, tooOld: (nat, nat) -> bool, keep: Loc -> bool)
      returns (out: Obtained, ghost how: Origin)
      requires Valid()
      requires Unwritten(tooOld)
      modifies `table, `chains, `nextToMerge, heap`nLive, heap`liveBytes, heap`deleted, heap`matureTime
      modifies heap`cells, heap`writeOffset, heap`ends, heap`links, heap`lists, heap`accessible, heap`evictable
      modifies heap`createAt, heap`ttl
      ensures old(heap.Site()).Fits(heap.n) && |old(nextToMerge)| == N_BUCKET
      ensures heap.matureTime <= old(heap.matureTime)
      ensures out.NoneFound? <==> old(Source(b0, tooOld)).Nowhere?
      ensures out.NoReserve? <==> old(Source(b0, tooOld)).Drained?
      ensures out.NoneFound? ==> Valid() && W() == old(W()) && heap.Site() == old(heap.Site())
      ensures out.NoReserve? ==> heap.Inv() && IndexOk() && W() == old(W())
      ensures !out.Got? ==> Lost(how) == {}
      ensures out.Got? ==> ValidBut(out.seg) && LosesIn(old(W()), W(), Lost(how))
      ensures out.Got? ==> Came(old(W()), old(heap.Site()), keep, how) && !how.Present?
      ensures out.Got? ==> Suits(how, old(Source(b0, tooOld)))
      ensures Lost(how) != {} ==> old(heap.links.nFree) <= heap.nReserved
      ensures MayLose(old(heap.Site()), how, AtAge(tooOld, heap.matureTime))
    {
      hide Valid, ValidBut, IndexOk, LosesIn, World.Sound, World.Look, MergeIs, Scan, Tries, AfterMerge, Waiting,
        Heap.Movable, Heap.Inv, MayLose;
      ghost var w := W();
      ValidFits();
      LosesInSelf(w);
      var s := TakeFree();
      if s != -1 {
        out, how := Got(s), Pool;
      } else {
        out, how := MergeRetry(b0, tooOld, keep);
      }
      if Lost(how) == {} {
        NothingLost(old(heap.Site()), how, AtAge(tooOld, heap.matureTime), old(heap.lists.chains));
      }
    }

    /** A new segment: from the free pool, or else freed up by merging, in at most nine attempts. */
    method SegGetNew(b0: nat, tooOld: (nat, nat) -> bool, keep: Loc -> bool) returns (out: Obtained, ghost how: Origin)
      requires Valid()
      requires Unwritten(tooOld)
      modifies `table, `chains, `nextToMerge, heap`nLive, heap`liveBytes, heap`deleted, heap`matureTime
      modifies heap`cells, heap`writeOffset, heap`ends, heap`links, heap`lists, heap`accessible, heap`evictable
      modifies heap`createAt, heap`ttl
      ensures old(heap.Site()).Fits(heap.n) && |old(nextToMerge)| == N_BUCKET
      ensures heap.matureTime <= old(heap.matureTime)
      ensures out.NoneFound? <==> old(Source(b0, tooOld)).Nowhere?
      ensures out.NoReserve? <==> old(Source(b0, tooOld)).Drained?
      ensures out.NoneFound? ==> Valid() && W() == old(W()) && heap.Site() == old(heap.Site())
      ensures out.NoReserve? ==> heap.Inv() && IndexOk() && W() == old(W())
      ensures !out.Got? ==> Lost(how) == {}
      ensures out.Got? ==> ValidBut(out.seg) && LosesIn(old(W()), W(), Lost(how))
      ensures out.Got? ==> Came(old(W()), old(heap.Site()), keep, how) && !how.Present?
      ensures out.Got? ==> Suits(how, old(Source(b0, tooOld)))
      ensures Lost(how) != {} ==> old(heap.links.nFree) <= heap.nReserved
      ensures MayLose(old(heap.Site()), how, AtAge(tooOld, heap.matureTime))
      ensures out.Got? ==> heap.ends[out.seg] == heap.writeOffset[out.seg] == 0 && heap.createAt[out.seg] == heap.now
      ensures out.Got? ==> heap.accessible[out.seg] && heap.links.next[out.seg] == -1
    {
      hide Valid, ValidBut, IndexOk, LosesIn, World.Sound, World.Look, MergeIs, Supplied, AfterMerge, Waiting,
        SameLooks, Heap.Inv, MayLose;
      ghost var w := W();
      ValidFits();
      out, how := TakeOrEvict(b0, tooOld, keep);
      if out.Got? {
        ghost var w' := W();
        ButSound(out.seg);
        InitHeld(out.seg);
        ButSound(out.seg);
        LosesInSame(w, w', W(), Lost(how));
      }
    }

    lemma ButSound(s: nat)
      requires ValidBut(s)
      ensures heap.Shaped() && s < heap.n && W().Sound()
    {
    }

    /** Search for segments to merge, at most nine times. */
    method MergeRetry(b0: nat, tooOld: (nat, nat) -> bool, keep: Loc -> bool) returns (out: Obtained, ghost how: Origin)
      requires Valid()
      requires Unwritten(tooOld)
      modifies `table, `chains, `nextToMerge, heap`nLive, heap`liveBytes, heap`deleted, heap`matureTime
      modifies heap`cells, heap`writeOffset, heap`ends, heap`links, heap`lists, heap`accessible, heap`evictable
      modifies heap`createAt, heap`ttl
      ensures old(heap.Site()).Fits(heap.n) && |old(nextToMerge)| == N_BUCKET
      ensures var o := old(Tries(heap.Site(), nextToMerge, b0, heap.matureTime, tooOld, RETRIES));
              && (out.NoneFound? <==> o.Nothing?)
              && (out.NoReserve? <==> o.Run? && old(heap.links.nFree) == 0)
              && (out.Got? ==> out.seg == o.seg && (how.Merge? <==> o.Run?))
      ensures heap.matureTime <= old(heap.matureTime)
      ensures out.NoneFound? ==> Valid() && W() == old(W()) && heap.Site() == old(heap.Site())
      ensures out.NoReserve? ==> heap.Inv() && IndexOk() && W() == old(W())
      ensures !out.Got? ==> Lost(how) == {}
      ensures out.Got? ==> ValidBut(out.seg) && LosesIn(old(W()), W(), Lost(how))
      ensures out.Got? ==> Came(old(W()), old(heap.Site()), keep, how) && !how.Pool? && !how.Present?
      ensures out.Got? ==> MayLose(old(heap.Site()), how, AtAge(tooOld, heap.matureTime))
    {
      hide Valid, ValidBut, IndexOk, LosesIn, World.Sound, World.Look, MergeIs, Scan, Tries, Came, Waiting,
        Restarted, Heap.Movable, Heap.Inv, MayLose;
      ghost var w, st := W(), heap.Site();
      ValidFits();
      out, how := NoneFound, Present;
      var left := RETRIES as int;
      ghost var want := Tries(st, nextToMerge, b0, heap.matureTime, tooOld, RETRIES);
      while out.NoneFound? && left >= 0
        invariant -1 <= left <= RETRIES && (out.NoneFound? ==> |nextToMerge| == N_BUCKET)
        invariant out.NoneFound? ==> Valid() && W() == w && heap.Site() == st && heap.Shaped()
        invariant out.NoneFound? ==>
                    want == if left < 0 then Nothing else Tries(st, nextToMerge, b0, heap.matureTime, tooOld, left)
        invariant heap.matureTime <= old(heap.matureTime)
        invariant out.NoReserve? ==> want.Run? && st.links.nFree == 0 && heap.Inv() && IndexOk() && W() == w
        invariant !out.Got? ==> Lost(how) == {}
        invariant out.Got? ==> !want.Nothing? && want.seg == out.seg && (how.Merge? <==> want.Run?)
        invariant out.Got? && want.Run? ==> st.links.nFree != 0
        invariant out.Got? ==> ValidBut(out.seg) && W().Sound() && LosesIn(w, W(), Lost(how))
        invariant out.Got? ==> Came(w, st, keep, how) && !how.Pool? && !how.Present?
        invariant out.Got? ==> MayLose(st, how, AtAge(tooOld, heap.matureTime))
        decreases left
      {
        TriesStep(st, nextToMerge, b0, heap.matureTime, tooOld, left);
        out, how := MergeEvict(b0, AtAge(tooOld, heap.matureTime), keep);
        if out.NoneFound? {
          ValidFits();
        } else if out.Got? {
          ButSound(out.seg);
        }
        left := left - 1;
      }
    }

    /** Link a new segment behind those of bucket b. */
    method LinkNew(b: nat, s: nat)
      requires ValidBut(s) && b < N_BUCKET && Used(b) && heap.ends[s] == heap.writeOffset[s] == 0
      requires heap.createAt[s] == heap.now && heap.accessible[s] && heap.links.next[s] == -1
      modifies heap`links, heap`lists, heap`evictable, heap`ttl
      ensures IndexOk() && HasRoom(b, 0, s) && Fresh(b, s)
      ensures heap.links.nFree == old(heap.links.nFree) && SameLooks(old(W()), W())
      ensures heap.lists.chains == old(heap.lists.chains)[b := old(heap.lists.chains[b]) + [s]]
    {
      hide World.Sound, World.Look, MarksOk, TableOk, Heap.Inv, Vacant, InRange1, SameLooks;
      ghost var w := W();
      heap.LinkFresh(b, s);
      ghost var w' := w.(at := heap.createAt, ttl := heap.ttl);
      SoundAged(w, s, heap.createAt, heap.ttl, w');
      assert W() == w';
      OrderlyLast(b);
    }

    /** Write an item at the end of segment s. It is pending until it is inserted. */
    method Place(s: nat, it: Item) returns (l: Loc)
      requires Orderly() && heap.FilledBut(s) && s < heap.n && heap.lists.owner[s] >= 0 && ItemOk(it)
      requires heap.writeOffset[s] + ItemSize(it) <= heap.segSize
      modifies `pending, heap`cells, heap`writeOffset, heap`ends, heap`nLive, heap`liveBytes, heap`wref, heap`deleted
      ensures Valid() && InMem(heap.cells, l) && ItemAt(heap.cells, l) == it
      ensures l.seg == s && l.off == old(heap.writeOffset[s])
      ensures pending == old(pending) + [Entry(hs.g(it.key), 0, l)]
      ensures SameLooks(old(W()), W())
    {
      hide World.Sound, World.Look, MarksOk, TableOk, ListsOk, SegTiled, InRange1, ItemSize, ItemOk, WriteItem,
        Waiting;
      hide Heap.Sorted, Heap.TtlOk, Heap.SegsOk, SameLooks;
      ghost var w := W();
      EndIs(s);
      var e := heap.writeOffset[s];
      l := Loc(s, e);
      ghost var x := Entry(hs.g(it.key), 0, l);
      ghost var w' := PlaceWorld(w, heap.deleted, s, heap.segSize, it, e, x);
      AppendItem(s, e, it);
      CountItem(l, x, w');
    }

    /** A new item is counted on its segment, as live and as being written. */
    method CountItem(l: Loc, ghost x: Slot, ghost w': World)
      requires heap.Shaped() && TableOk() && InMem(heap.cells, l)
      requires w' == W().(pending := pending + [x], live := PlusOne(heap.nLive, l),
                          bytes := PlusBytes(heap.cells, heap.liveBytes, l), wref := PlusOne(heap.wref, l))
      requires w'.Sound() && MarksOk(w'.t, w'.pending, heap.deleted - {l})
      modifies `pending, heap`nLive, heap`liveBytes, heap`wref, heap`deleted
      ensures IndexOk() && W() == w'
    {
      hide World.Sound, MarksOk;
      heap.deleted := heap.deleted - {l};
      heap.nLive := PlusOne(heap.nLive, l);
      heap.liveBytes := PlusBytes(heap.cells, heap.liveBytes, l);
      heap.wref := PlusOne(heap.wref, l);
      pending := pending + [x];
    }

    /** The bytes of an item behind those of segment s. */
    method AppendItem(s: nat, e: nat, it: Item)
      requires heap.Quiet() && heap.FilledBut(s) && s < heap.n && heap.ends[s] == e
      requires SegTiled(WriteItem(heap.cells[s], e, it), heap.segSize, e + ItemSize(it), e + ItemSize(it))
      requires heap.lists.owner[s] >= 0
      modifies heap`cells, heap`writeOffset, heap`ends
      ensures heap.Quiet() && heap.FilledBut(-1)
      ensures heap.cells == old(heap.cells)[s := WriteItem(old(heap.cells[s]), e, it)]
      ensures heap.writeOffset == old(heap.writeOffset)[s := e + ItemSize(it)]
      ensures heap.ends == old(heap.ends)[s := e + ItemSize(it)]
    {
      hide ListsOk, SegTiled, ItemSize, WriteItem, Heap.Sorted, Heap.TtlOk;
      heap.cells := heap.cells[s := WriteItem(heap.cells[s], e, it)];
      heap.writeOffset := heap.writeOffset[s := e + ItemSize(it)];
      heap.ends := heap.ends[s := e + ItemSize(it)];
    }

    /** A segment with room left ends where it is written to next. */
    lemma EndIs(s: nat)
      requires Orderly() && s < heap.n && heap.writeOffset[s] <= heap.segSize
      ensures heap.writeOffset[s] == heap.ends[s] && SegTiled(heap.cells[s], heap.segSize, heap.ends[s], heap.ends[s])
    {
      hide IndexOk, ListsOk, Heap.Sorted, Heap.TtlOk, Tiles;
    }

    /**
     * Reserve room for an item in the bucket of its ttl and write it there. If the bucket's last
     * segment is open but has no room, it is closed; then a new segment is linked behind it, for
     * which others may be merged, so that keys may be lost.
     */
    method ItemReserve(it: Item, ttl: int, b0: nat, tooOld: (nat, nat) -> bool, keep: Loc -> bool)
      returns (r: Reserved, ghost how: Origin)
      requires Valid() && ItemOk(it) && Int32(ttl) && CanReserve(it, ttl)
      requires Unwritten(tooOld)
      modifies `table, `chains, `nextToMerge, `pending, heap`nLive, heap`liveBytes, heap`deleted, heap`matureTime
      modifies heap`cells, heap`writeOffset, heap`ends, heap`links, heap`lists, heap`accessible, heap`evictable
      modifies heap`createAt, heap`ttl, heap`wref
      ensures old(heap.Site()).Fits(heap.n) && |old(nextToMerge)| == N_BUCKET
      ensures old(EndsWith(FindIdx(ttl), ItemSize(it), b0, tooOld, r))
      ensures heap.matureTime <= old(heap.matureTime)
      ensures (r.Ok? && !how.Present?) || r.Unopened? ==> Suits(how, old(Source(b0, tooOld)))
      ensures heap.Shaped() && IndexOk() && LosesIn(old(W()), W(), Lost(how))
      ensures EndedWith(FindIdx(ttl), it, r, old(pending))
      ensures !r.Ok? ==> heap.wref == old(heap.wref)
      ensures MayLose(old(heap.Site()), how, AtAge(tooOld, heap.matureTime))
      ensures Lost(how) != {} ==> old(heap.links.nFree) <= heap.nReserved
      ensures r.Oversized? || r.NoMemory? || r.Stuck? ==> Lost(how) == {}
      ensures r.Oversized? ==> W() == old(W())
      ensures r.Ok? ==> old(Spot(FindIdx(ttl), ItemSize(it), how, r.loc))
      ensures r.Ok? ==> LinkedBy(old(W()), old(heap.Site()), keep, how, FindIdx(ttl), r.loc.seg)
      ensures r.Unopened? ==> LinkedBy(old(W()), old(heap.Site()), keep, how, FindIdx(ttl), r.seg)
    {
      hide Valid, Orderly, World.Sound, World.Look, LosesIn, ItemSize, ItemOk, Roomy, Heap.Movable, Waiting;
      hide FindIdx, BucketTtl, Stable, Used, Source, LinkedBy, Reached, NotOpen;
      ValidShaped();
      LosesInSelf(W());
      StableIffUsed(ttl);
      LastIs(FindIdx(ttl));
      if ItemSize(it) > heap.segSize {
        return Oversized, Present;
      }
      r, how := BucketReserve(FindIdx(ttl), it, b0, tooOld, keep);
    }

    /** What a reservation needs, unless it is refused for its size: a bucket that can be found again. */
    predicate CanReserve(it: Item, ttl: int) {
      ItemSize(it) > heap.segSize || Stable(ttl)
    }

    /**
     * How a reservation of sz bytes in bucket b ends. Without room in the bucket's last segment it
     * needs a short one, and whether that one is open depends on the last flush alone.
     */
    ghost predicate EndsWith(b: nat, sz: nat, b0: nat, tooOld: (nat, nat) -> bool, r: Reserved)
      requires heap.Shaped() && heap.Site().Fits(heap.n) && |nextToMerge| == N_BUCKET && b < N_BUCKET
      reads this, heap
    {
      Ending(sz <= heap.segSize, Roomy(b, sz), Source(b0, tooOld), heap.flushAt < heap.now, r)
    }

    lemma EndsAs(b: nat, sz: nat, b0: nat, tooOld: (nat, nat) -> bool)
      requires heap.Shaped() && heap.Site().Fits(heap.n) && |nextToMerge| == N_BUCKET && b < N_BUCKET
      ensures forall r :: EndsWith(b, sz, b0, tooOld, r) <==>
                Ending(sz <= heap.segSize, Roomy(b, sz), Source(b0, tooOld), heap.flushAt < heap.now, r)
    {
    }

    /** The item is written at l, on an open segment of bucket b, and waits there like those in `was`. */
    ghost predicate Reached(b: nat, it: Item, l: Loc, was: Chain)
      requires heap.Shaped() && b < N_BUCKET
      reads `pending, heap
    {
      && pending == was + [Entry(hs.g(it.key), 0, l)]
      && InMem(heap.cells, l) && ItemAt(heap.cells, l) == it && l.seg < heap.n && heap.lists.owner[l.seg] == b
      && heap.SegIsAccessible(l.seg) && heap.ttl[l.seg] == BucketTtl(b) && heap.createAt[l.seg] <= heap.now
    }

    /** Segment s was linked behind bucket b's list, and its offset moved on, but it is not open. */
    ghost predicate NotOpen(b: nat, sz: nat, s: nat)
      requires heap.Shaped() && b < N_BUCKET
      reads heap
    {
      heap.Spare() && Idle(b, sz, s) && heap.links.last[b] == s
    }

    /** What a reservation leaves. Unless it goes wrong, the cache is valid. */
    ghost predicate EndedWith(b: nat, it: Item, r: Reserved, was: Chain)
      requires heap.Shaped() && b < N_BUCKET
      reads this, heap
    {
      match r
      case Ok(l) => Valid() && Reached(b, it, l, was)
      case Unopened(s) => NotOpen(b, ItemSize(it), s) && pending == was
      case Stuck => pending == was
      case _ => Valid() && pending == was
    }

    /** The lists and the free count, when bucket b's last segment s came about as `how` says. */
    ghost predicate LinkedBy(w0: World, st: Site, keep: Loc -> bool, how: Origin, b: nat, s: nat)
      reads heap`lists, heap`links, heap`matureTime
    {
      && Paid(w0, st, keep, how) && b < |st.lists.chains| == |heap.lists.chains|
      && var q := AfterMerge(st.lists.chains, how);
         heap.lists.chains == if how.Present? then st.lists.chains else q[b := q[b] + [s]]
    }

    /** Reserve room in bucket b, and write the item there. */
    method BucketReserve(b: nat, it: Item, b0: nat, tooOld: (nat, nat) -> bool, keep: Loc -> bool)
      returns (r: Reserved, ghost how: Origin)
      requires Valid() && ItemOk(it) && b < N_BUCKET && Used(b) && ItemSize(it) <= heap.segSize
      requires Unwritten(tooOld)
      modifies `table, `chains, `nextToMerge, `pending, heap`nLive, heap`liveBytes, heap`deleted, heap`matureTime
      modifies heap`cells, heap`writeOffset, heap`ends, heap`links, heap`lists, heap`accessible, heap`evictable
      modifies heap`createAt, heap`ttl, heap`wref
      ensures old(heap.Site()).Fits(heap.n) && |old(nextToMerge)| == N_BUCKET && heap.Shaped()
      ensures old(EndsWith(b, ItemSize(it), b0, tooOld, r))
      ensures heap.matureTime <= old(heap.matureTime)
      ensures (r.Ok? && !how.Present?) || r.Unopened? ==> Suits(how, old(Source(b0, tooOld)))
      ensures IndexOk() && LosesIn(old(W()), W(), Lost(how)) && EndedWith(b, it, r, old(pending))
      ensures !r.Ok? ==> heap.wref == old(heap.wref)
      ensures MayLose(old(heap.Site()), how, AtAge(tooOld, heap.matureTime))
      ensures Lost(how) != {} ==> old(heap.links.nFree) <= heap.nReserved
      ensures r.NoMemory? || r.Stuck? ==> Lost(how) == {}
      ensures r.Ok? ==> old(Spot(b, ItemSize(it), how, r.loc))
      ensures r.Ok? ==> LinkedBy(old(W()), old(heap.Site()), keep, how, b, r.loc.seg)
      ensures r.Unopened? ==> LinkedBy(old(W()), old(heap.Site()), keep, how, b, r.seg)
    {
      hide Valid, Orderly, IndexOk, World.Sound, World.Look, LosesIn, SameLooks, ItemSize, ItemOk, BucketTtl, Used,
        Waiting, Supplied, AfterMerge, MayLose, Reached, NotOpen, InMem, ItemAt, Heap.Inv, Source, HasRoom, EndsWith,
        Roomy;
      ghost var w := W();
      ValidFits();
      EndsAs(b, ItemSize(it), b0, tooOld);
      if !Roomy(b, ItemSize(it)) {
        r, how := ReserveNew(b, it, b0, tooOld, keep);
      } else {
        RoomyIs(b, ItemSize(it));
        LosesInSelf(w);
        NothingLost(heap.Site(), Present, AtAge(tooOld, heap.matureTime), heap.lists.chains);
        how := Present;
        r := PutIn(b, heap.links.last[b], it);
        IndexSound();
        LosesInSame(w, w, W(), {});
      }
    }

    lemma RoomyIs(b: nat, sz: nat)
      requires Valid() && b < N_BUCKET && heap.Shaped() && Roomy(b, sz)
      ensures 0 <= heap.links.last[b] < heap.n && HasRoom(b, sz, heap.links.last[b])
      ensures heap.SegIsAccessible(heap.links.last[b])
      ensures heap.writeOffset[heap.links.last[b]] >= 0
    {
      hide IndexOk, ListsOk, Heap.Sorted, Heap.TtlOk, Tiles;
      LastIs(b);
    }

    /** Reserve room in a new segment of bucket b, as its last one has none or is not open. */
    method ReserveNew(b: nat, it: Item, b0: nat, tooOld: (nat, nat) -> bool, keep: Loc -> bool)
      returns (r: Reserved, ghost how: Origin)
      requires Valid() && ItemOk(it) && b < N_BUCKET && Used(b) && ItemSize(it) <= heap.segSize
      requires heap.Shaped() && !Roomy(b, ItemSize(it))
      requires Unwritten(tooOld)
      modifies `table, `chains, `nextToMerge, `pending, heap`nLive, heap`liveBytes, heap`deleted, heap`matureTime
      modifies heap`cells, heap`writeOffset, heap`ends, heap`links, heap`lists, heap`accessible, heap`evictable
      modifies heap`createAt, heap`ttl, heap`wref
      ensures old(heap.Site()).Fits(heap.n) && |old(nextToMerge)| == N_BUCKET && heap.Shaped() && !how.Present?
      ensures Ending(true, false, old(Source(b0, tooOld)), heap.flushAt < heap.now, r)
      ensures heap.matureTime <= old(heap.matureTime)
      ensures r.Ok? || r.Unopened? ==> Suits(how, old(Source(b0, tooOld)))
      ensures IndexOk() && LosesIn(old(W()), W(), Lost(how)) && EndedWith(b, it, r, old(pending))
      ensures !r.Ok? ==> heap.wref == old(heap.wref)
      ensures MayLose(old(heap.Site()), how, AtAge(tooOld, heap.matureTime))
      ensures Lost(how) != {} ==> old(heap.links.nFree) <= heap.nReserved
      ensures r.NoMemory? || r.Stuck? ==> Lost(how) == {}
      ensures r.Ok? ==> r.loc.off == 0 && LinkedBy(old(W()), old(heap.Site()), keep, how, b, r.loc.seg)
      ensures r.Unopened? ==> LinkedBy(old(W()), old(heap.Site()), keep, how, b, r.seg)
    {
      hide Valid, Orderly, IndexOk, World.Sound, World.Look, LosesIn, SameLooks, ItemSize, ItemOk, BucketTtl, Used,
        Waiting, Supplied, MayLose, Heap.Inv, HasRoom, Fresh, Source, LinkedBy, Roomy, Suits, Reached, NotOpen,
        Heap.Site, W;
      ghost var w := W();
      ValidFits();
      var out;
      out, how := RoomFor(b, ItemSize(it), b0, tooOld, keep);
      if out.NoneFound? {
        return NoMemory, how;
      }
      if out.NoReserve? {
        return Stuck, how;
      }
      IndexSound();
      ghost var w' := W();
      r := PutFresh(b, out.seg, it);
      IndexSound();
      LosesInSame(w, w', W(), Lost(how));
    }

    /** Use a new segment, which is open just when the last flush is past. */
    method PutFresh(b: nat, s: nat, it: Item) returns (r: Reserved)
      requires HasRoom(b, ItemSize(it), s) && Fresh(b, s) && ItemOk(it)
      modifies `pending, heap`cells, heap`writeOffset, heap`ends, heap`nLive, heap`liveBytes, heap`wref, heap`deleted
      ensures IndexOk() && SameLooks(old(W()), W()) && heap.Shaped() && EndedWith(b, it, r, old(pending))
      ensures r == if heap.flushAt < heap.now then Ok(Loc(s, 0)) else Unopened(s)
      ensures !r.Ok? ==> heap.wref == old(heap.wref)
    {
      hide Valid, Orderly, IndexOk, World.Sound, World.Look, SameLooks, ItemSize, ItemOk, Reached, NotOpen;
      r := PutIn(b, s, it);
      IndexSound();
    }

    /** Place l is behind the items of bucket b's last segment if there is room, else at the beginning of another. */
    ghost predicate Spot(b: nat, sz: nat, how: Origin, l: Loc)
      requires heap.Shaped() && b < N_BUCKET
      reads heap
    {
      && (how.Present? <==> Roomy(b, sz))
      && if how.Present? then heap.links.last[b] == l.seg < heap.n && heap.writeOffset[l.seg] == l.off else l.off == 0
    }

    /**
     * Use the room in segment s, if the segment is open. If not, its offset has moved on all the
     * same, and the code goes round its loop with s as the last segment.
     */
    method PutIn(b: nat, s: nat, it: Item) returns (r: Reserved)
      requires HasRoom(b, ItemSize(it), s) && (heap.SegIsAccessible(s) || Fresh(b, s)) && ItemOk(it)
      modifies `pending, heap`cells, heap`writeOffset, heap`ends, heap`nLive, heap`liveBytes, heap`wref, heap`deleted
      ensures IndexOk() && SameLooks(old(W()), W())
      ensures old(heap.SegIsAccessible(s)) ==>
                && r.Ok? && r.loc.seg == s && r.loc.off == old(heap.writeOffset[s]) && Valid()
                && Reached(b, it, r.loc, old(pending))
      ensures !old(heap.SegIsAccessible(s)) ==>
                r == Unopened(s) && NotOpen(b, ItemSize(it), s) && pending == old(pending)
      ensures !r.Ok? ==> heap.wref == old(heap.wref)
    {
      hide Valid, Orderly, IndexOk, World.Sound, World.Look, SameLooks, ItemSize, ItemOk, BucketTtl, Waiting,
        Heap.Inv;
      OrderlyShaped();
      if heap.SegIsAccessible(s) {
        var l := Place(s, it);
        ValidFits();
        r := Ok(l);
      } else {
        SameLooksSelf(W());
        OrderlyLast(b);
        MoveOffset(s, ItemSize(it));
        r := Unopened(s);
      }
    }

    method MoveOffset(s: nat, off: nat)
      requires IndexOk() && s < heap.n
      modifies heap`writeOffset
      ensures IndexOk() && W() == old(W()) && heap.writeOffset == old(heap.writeOffset)[s := off]
    {
      hide World.Sound, MarksOk, TableOk;
      heap.writeOffset := heap.writeOffset[s := off];
    }

    /** Segment s is in bucket b's list with sz bytes reserved and none written, and is not open. */
    ghost predicate Idle(b: nat, sz: nat, s: int)
      requires heap.Shaped() && b < N_BUCKET
      reads heap
    {
      && 0 <= s < heap.n && heap.lists.owner[s] == b && heap.createAt[s] == heap.now && heap.ttl[s] == BucketTtl(b)
      && heap.writeOffset[s] == sz && heap.ends[s] == 0 && !heap.SegIsAccessible(s)
    }

    /**
     * How the loop of a reservation goes on in the second of a flush, after a segment that is not
     * open. The next one is not open either, so it links every segment that is free beside the
     * reserve, in order, and reserves sz bytes in each. No key is affected. What it does when only
     * the reserve is left is not followed further.
     */
    method LoopOn(b: nat, sz: nat) returns (open: bool, ghost taken: seq<int>)
      requires heap.Spare() && IndexOk() && b < N_BUCKET && heap.now <= heap.flushAt
      modifies heap`links, heap`lists, heap`writeOffset, heap`liveBytes, heap`nLive, heap`createAt, heap`accessible
      modifies heap`ends, heap`ttl, heap`evictable
      ensures IndexOk() && SameLooks(old(W()), W()) && !open
      ensures heap.links.nFree == Min(old(heap.links.nFree), heap.nReserved)
      ensures |taken| == old(heap.links.nFree) - heap.links.nFree
      ensures Looped(b, sz, taken, old(heap.lists), old(Headers()))
    {
      hide Heap.Spare, IndexOk, World.Sound, World.Look, SameLooks, Looped, Headers, Idle;
      ghost var w := W();
      IndexSound();
      SameLooksSelf(w);
      SpareFree();
      LoopBegins(b, sz);
      open, taken := false, [];
      while !open && heap.links.nFree > heap.nReserved
        invariant heap.Spare() && heap.Shaped() && IndexOk() && W().Sound() && SameLooks(w, W()) && !open
        invariant |taken| == old(heap.links.nFree) - heap.links.nFree
        invariant taken != [] ==> heap.links.nFree >= heap.nReserved
        invariant Looped(b, sz, taken, old(heap.lists), old(Headers()))
      {
        ghost var w' := W();
        var s := LoopStep(b, sz, taken, old(heap.lists), old(Headers()));
        SameLooksTrans(w, w', W());
        taken := taken + [s];
        open := heap.SegIsAccessible(s);
      }
    }

    /** The loop has linked the segments in `taken`, the first of those that were free, and nothing else has changed. */
    ghost predicate Looped(b: nat, sz: nat, taken: seq<int>, lists: Spelling, heads: seq<Header>)
      reads heap
    {
      && heap.Spare() && b < |lists.chains| == N_BUCKET && |heads| == heap.n
      && taken + heap.lists.free == lists.free
      && heap.lists.chains == lists.chains[b := lists.chains[b] + taken]
      && (forall i :: 0 <= i < |taken| ==> Idle(b, sz, taken[i]))
      && (forall s :: 0 <= s < heap.n && s !in taken ==> Headers()[s] == heads[s])
    }

    ghost function Headers(): (heads: seq<Header>)
      requires heap.Shaped()
      reads heap
      ensures |heads| == heap.n
    {
      seq(heap.n, s requires 0 <= s < heap.n && heap.Shaped() reads heap =>
            Header(heap.lists.owner[s], heap.writeOffset[s], heap.createAt[s], heap.ttl[s], heap.accessible[s],
                   heap.ends[s]))
    }

    lemma LoopBegins(b: nat, sz: nat)
      requires heap.Spare() && b < N_BUCKET
      ensures Looped(b, sz, [], heap.lists, Headers())
    {
      hide ListsOk;
      assert heap.lists.chains[b] + [] == heap.lists.chains[b];
    }

    /** One turn of it. */
    method LoopStep(b: nat, sz: nat, ghost taken: seq<int>, ghost lists: Spelling, ghost heads: seq<Header>)
      returns (s: nat)
      requires Looped(b, sz, taken, lists, heads) && IndexOk() && heap.links.nFree > heap.nReserved
      requires heap.now <= heap.flushAt
      modifies heap`links, heap`lists, heap`writeOffset, heap`liveBytes, heap`nLive, heap`createAt, heap`accessible
      modifies heap`ends, heap`ttl, heap`evictable
      ensures heap.Spare() && heap.Shaped() && IndexOk() && W().Sound() && SameLooks(old(W()), W())
      ensures heap.links.nFree == old(heap.links.nFree) - 1
      ensures s < heap.n && !heap.SegIsAccessible(s) && Looped(b, sz, taken + [s], lists, heads)
    {
      hide ListsOk, World.Sound, World.Look, SameLooks, MarksOk, TableOk, BucketTtl;
      SpareFree();
      s := LinkIdle(b, sz);
      assert lists.chains[b] + (taken + [s]) == lists.chains[b] + taken + [s];
      assert taken + [s] + heap.lists.free == lists.free;
    }

    lemma SpareFree()
      requires heap.Spare()
      ensures heap.links.nFree == |heap.lists.free|
      ensures forall s :: 0 <= s < heap.n && heap.lists.owner[s] != FREE ==> s !in heap.lists.free
    {
    }

    /** Link a free segment, which nothing refers to, and reserve sz bytes in it. */
    method LinkIdle(b: nat, sz: nat) returns (s: nat)
      requires heap.Spare() && IndexOk() && b < N_BUCKET && heap.links.nFree > heap.nReserved
      modifies heap`links, heap`lists, heap`writeOffset, heap`liveBytes, heap`nLive, heap`createAt, heap`accessible
      modifies heap`ends, heap`ttl, heap`evictable
      ensures heap.Spare() && IndexOk() && SameLooks(old(W()), W()) && heap.links.nFree == old(heap.links.nFree) - 1
      ensures old(heap.lists.free) != [] && s == old(heap.lists.free)[0] < heap.n && old(heap.lists.owner[s]) == FREE
      ensures heap.lists == AppendedTo(TakenFrom(old(heap.lists)), b, s)
      ensures heap.writeOffset == old(heap.writeOffset)[s := sz] && heap.ends == old(heap.ends)[s := 0]
      ensures heap.createAt == old(heap.createAt)[s := heap.now] && heap.ttl == old(heap.ttl)[s := BucketTtl(b)]
      ensures heap.accessible == old(heap.accessible)[s := true]
    {
      hide ListsOk, World.Sound, World.Look, SameLooks, MarksOk, TableOk, Vacant, Waiting;
      ghost var w := W();
      s := heap.LinkFree(b, sz);
      EmptyVacant(w, s);
      ghost var w' := w.(ends := w.ends[s := 0]);
      SoundEmptied(w, s, w');
      ghost var w'' := w'.(at := heap.createAt, ttl := heap.ttl);
      SoundAged(w', s, heap.createAt, heap.ttl, w'');
      SameLooksTrans(w, w', w'');
      assert W() == w'';
    }

    /** The last segment of bucket b is open and has room for sz bytes. */
    predicate Roomy(b: nat, sz: nat)
      requires heap.Shaped() && b < N_BUCKET
      reads heap
    {
      var s := heap.links.last[b];
      0 <= s < heap.n && heap.SegIsAccessible(s) && heap.writeOffset[s] + sz <= heap.segSize
    }

    /** Close the last segment of bucket b, which has no room for sz bytes or is not open, and link a new one. */
    method RoomFor(b: nat, sz: nat, b0: nat, tooOld: (nat, nat) -> bool, keep: Loc -> bool)
      returns (out: Obtained, ghost how: Origin)
      requires Valid() && b < N_BUCKET && Used(b) && sz <= heap.segSize && heap.Shaped() && !Roomy(b, sz)
      requires Unwritten(tooOld)
      modifies `table, `chains, `nextToMerge, heap`nLive, heap`liveBytes, heap`deleted, heap`matureTime
      modifies heap`cells, heap`writeOffset, heap`ends, heap`links, heap`lists, heap`accessible, heap`evictable
      modifies heap`createAt, heap`ttl
      ensures old(heap.Site()).Fits(heap.n) && |old(nextToMerge)| == N_BUCKET && heap.Shaped() && !how.Present?
      ensures IndexOk() && LosesIn(old(W()), W(), Lost(how)) && (out.NoneFound? ==> Valid())
      ensures MayLose(old(heap.Site()), how, AtAge(tooOld, heap.matureTime))
      ensures Lost(how) != {} ==> old(heap.links.nFree) <= heap.nReserved
      ensures !out.Got? ==> Lost(how) == {}
      ensures heap.matureTime <= old(heap.matureTime)
      ensures out.Got? ==> Suits(how, old(Source(b0, tooOld)))
      ensures out.NoneFound? <==> old(Source(b0, tooOld)).Nowhere?
      ensures out.NoReserve? <==> old(Source(b0, tooOld)).Drained?
      ensures out.Got? ==> HasRoom(b, sz, out.seg) && LinkedBy(old(W()), old(heap.Site()), keep, how, b, out.seg)
      ensures out.Got? ==> Fresh(b, out.seg)
    {
      hide Valid, Orderly, IndexOk, World.Sound, World.Look, LosesIn, SameLooks, Used, Waiting, Supplied, MergeIs,
        AfterMerge;
      ghost var w, st := W(), heap.Site();
      ValidShaped();
      LastIs(b);
      var last := heap.links.last[b];
      var open := last != -1 && heap.SegIsAccessible(last);
      if open {
        CloseTail(last, sz);
      } else {
        SameLooksSelf(w);
      }
      ghost var w1 := W();
      ValidFits();
      out, how := NewTail(b, b0, tooOld, keep);
      IndexSound();
      SameLosesIn(w, w1, W(), Lost(how));
      if open && how.Merge? && out.Got? {
        MergeIsSame(w, w1, st, last, heap.matureTime, keep, how, heap.links.nFree);
      }
    }

    /** Segment s is bucket b's last one and has room for sz bytes. */
    ghost predicate HasRoom(b: nat, sz: nat, s: nat)
      reads this, heap
    {
      && Orderly() && heap.FilledBut(s) && s < heap.n && b < N_BUCKET && heap.lists.owner[s] == b
      && heap.links.last[b] == s && heap.writeOffset[s] + sz <= heap.segSize
      && heap.ttl[s] == BucketTtl(b) && heap.createAt[s] <= heap.now
    }

    /** It is new, and open just when the last flush is past. */
    ghost predicate Fresh(b: nat, s: nat)
      reads this, heap
    {
      && heap.Shaped() && s < heap.n && heap.createAt[s] == heap.now && heap.writeOffset[s] == heap.ends[s] == 0
      && (heap.SegIsAccessible(s) <==> heap.flushAt < heap.now)
    }

    /** Get a new segment and link it behind those of bucket b. */
    method NewTail(b: nat, b0: nat, tooOld: (nat, nat) -> bool, keep: Loc -> bool)
      returns (out: Obtained, ghost how: Origin)
      requires Valid() && b < N_BUCKET && Used(b)
      requires Unwritten(tooOld)
      modifies `table, `chains, `nextToMerge, heap`nLive, heap`liveBytes, heap`deleted, heap`matureTime
      modifies heap`cells, heap`writeOffset, heap`ends, heap`links, heap`lists, heap`accessible, heap`evictable
      modifies heap`createAt, heap`ttl
      ensures old(heap.Site()).Fits(heap.n) && |old(nextToMerge)| == N_BUCKET && heap.Shaped() && !how.Present?
      ensures IndexOk() && LosesIn(old(W()), W(), Lost(how)) && (out.NoneFound? ==> Valid())
      ensures heap.matureTime <= old(heap.matureTime)
      ensures out.Got? ==> Suits(how, old(Source(b0, tooOld)))
      ensures out.NoneFound? <==> old(Source(b0, tooOld)).Nowhere?
      ensures out.NoReserve? <==> old(Source(b0, tooOld)).Drained?
      ensures MayLose(old(heap.Site()), how, AtAge(tooOld, heap.matureTime))
      ensures Lost(how) != {} ==> old(heap.links.nFree) <= heap.nReserved
      ensures !out.Got? ==> Lost(how) == {}
      ensures out.Got? ==> HasRoom(b, 0, out.seg) && Fresh(b, out.seg)
      ensures out.Got? ==> LinkedBy(old(W()), old(heap.Site()), keep, how, b, out.seg)
    {
      hide Valid, ValidBut, Orderly, IndexOk, LosesIn, World.Sound, World.Look, MergeIs, Supplied, AfterMerge,
        Waiting, SameLooks, Heap.Inv, MayLose, Used, HasRoom, Fresh, Source;
      ghost var w := W();
      ValidFits();
      LosesInSelf(w);
      out, how := SegGetNew(b0, tooOld, keep);
      if out.Got? {
        ghost var w' := W();
        ButSound(out.seg);
        LinkNew(b, out.seg);
        IndexSound();
        LosesInSame(w, w', W(), Lost(how));
      } else {
        NothingLost(old(heap.Site()), Pool, AtAge(tooOld, heap.matureTime), old(heap.lists.chains));
        how := Pool;
        if out.NoneFound? {
          ValidFits();
        }
        IndexSound();
      }
    }

    lemma OrderlyLast(b: nat)
      requires Orderly() && b < N_BUCKET
      ensures heap.Shaped() && IndexOk() && heap.links.last[b] == Tail(heap.lists.chains[b])
    {
      hide IndexOk, SegTiled, ListsOk, SortedAlong, InRange1, Linked;
      ChainLinked(heap.links, heap.lists, b);
    }

    lemma OrderlyShaped()
      requires Orderly()
      ensures heap.Shaped() && W().Sound() && heap.Inv() && heap.Spare()
    {
      hide ListsOk, SegTiled, Heap.Sorted, Heap.TtlOk;
    }

    /** The last segment of a list, if there is one. */
    lemma LastIs(b: nat)
      requires Valid() && b < N_BUCKET
      ensures heap.Site().Fits(heap.n) && |nextToMerge| == N_BUCKET && IndexOk()
      ensures var s := heap.links.last[b];
              s != -1 ==>
                && 0 <= s < heap.n && heap.lists.owner[s] == b && heap.ttl[s] == BucketTtl(b)
                && heap.createAt[s] <= heap.now && heap.links.next[s] == -1
    {
      hide IndexOk, SegTiled, ListsOk, SortedAlong, InRange1;
      ValidFits();
      ChainLinked(heap.links, heap.lists, b);
      var q := heap.lists.chains[b];
      if q != [] {
        NextIs(heap.links.prev, heap.links.next, q, |q| - 1);
      }
    }

    /** A reservation that does not fit: the offset moves past the end and the rest is cleared. */
    method CloseTail(s: nat, sz: nat)
      requires Valid() && s < heap.n && heap.lists.owner[s] >= 0 && heap.writeOffset[s] + sz > heap.segSize
      modifies heap`writeOffset, heap`cells
      ensures Valid() && SameLooks(old(W()), W())
      ensures |heap.cells| == |old(heap.cells)| == heap.n && heap.cells == old(heap.cells)[s := heap.cells[s]]
    {
      hide World.Sound, World.Look, MarksOk, TableOk, ListsOk, Tiles, SortedAlong, Vacant, InRange1, SameLooks;
      hide Heap.Sorted, Heap.TtlOk;
      ghost var w := W();
      SameLooksSelf(w);
      var off := heap.writeOffset[s];
      heap.writeOffset := heap.writeOffset[s := off + sz];
      if off < heap.segSize {
        Seal(s, off);
      }
    }

    /** The merged segment has taken its place in the list. */
    lemma MergePlace(s: nat, j: Job, m: nat)
      requires MergeLists(s, j, m) && m > 0
      ensures heap.lists.owner[s] == j.b && |j.pre| < |heap.lists.chains[j.b]| && heap.lists.chains[j.b][|j.pre|] == s
    {
      hide SegTiled, ListsOk, Heap.Sorted, Heap.TtlOk, SortedAlong, Linked;
      ChainLinked(heap.links, heap.lists, j.b);
      assert heap.lists.chains[j.b][|j.pre|] == s;
    }

    lemma MergeShaped(s: nat, j: Job, m: nat)
      requires MergeLists(s, j, m)
      ensures heap.Shaped() && s < heap.n && j.Ok(heap.n) && m <= |j.qs| && |j.qs| > 0
    {
    }
  }

  /** The table spells the chains. */
  ghost predicate TableScans(table: seq<seq<Bucket>>, chains: seq<Chain>) {
    |table| == |chains| > 0 && forall b :: 0 <= b < |table| ==> Scans(table[b], chains[b])
  }

  lemma TableStore(table: seq<seq<Bucket>>, chains: seq<Chain>, b: nat, raw: seq<Bucket>, c: Chain)
    requires TableScans(table, chains) && b < |table| && Scans(raw, c)
    ensures |table| == |chains| && TableScans(table[b := raw], chains[b := c])
  {
  }

  ghost predicate AllInRange(lists: seq<seq<int>>, n: nat) {
    forall b :: 0 <= b < |lists| ==> InRange(lists[b], n)
  }

  /** The first n lists without the dead in front. */
  ghost function Swept(lists: seq<seq<int>>, dead: seq<bool>, n: nat): seq<seq<int>>
    requires AllInRange(lists, |dead|)
  {
    seq(|lists|, c requires 0 <= c < |lists| => if c < n then Survivors(lists[c], dead) else lists[c])
  }

  lemma SweptNone(lists: seq<seq<int>>, dead: seq<bool>)
    requires AllInRange(lists, |dead|)
    ensures Swept(lists, dead, 0) == lists
  {
  }

  lemma SweptMore(lists: seq<seq<int>>, dead: seq<bool>, n: nat)
    requires AllInRange(lists, |dead|) && n < |lists|
    ensures |Swept(lists, dead, n)| == |lists| && Swept(lists, dead, n)[n] == lists[n]
    ensures Swept(lists, dead, n + 1) == Swept(lists, dead, n)[n := Survivors(lists[n], dead)]
  {
  }

  lemma SweptIs(lists: seq<seq<int>>, dead: seq<bool>)
    requires AllInRange(lists, |dead|)
    ensures |Swept(lists, dead, |lists|)| == |lists|
    ensures forall b :: 0 <= b < |lists| ==> Swept(lists, dead, |lists|)[b] == Survivors(lists[b], dead)
  {
  }

  /** What is left of a list without the dead in front are exactly those that are not dead. */
  ghost predicate Cleansed(q: seq<int>, dead: seq<bool>) {
    && InRange(q, |dead|)
    && (forall i :: 0 <= i < |Survivors(q, dead)| ==> !dead[Survivors(q, dead)[i]])
    && (forall x :: x in q && !dead[x] ==> x in Survivors(q, dead))
  }

  /** What there is to say of a segment. */
  datatype Header = Header(owner: int, offset: int, at: int, ttl: int, accessible: bool, end: nat)

  /** A segment for the caller's use, none, or a merge that has no segment to copy to. */
  datatype Obtained = Got(seg: nat) | NoneFound | NoReserve

  /**
   * Where a segment with room comes from: it is the last of its list, or was free, or m segments
   * from position p of bucket b's list on were merged into segment `into`, -1 if nothing was kept,
   * or it was the first of bucket b's list.
   */
  datatype Origin =
    | Present
    | Pool
    | Merge(b: nat, p: nat, m: nat, into: int, gone: set<nat>)
    | Forced(b: nat, gone: set<nat>)

  /** A segment comes from where it was to be had. */
  predicate Suits(how: Origin, src: Supply) {
    match src
    case FromPool => how.Pool?
    case FromMerge(_) => how.Merge?
    case FromList(_) => how.Forced?
    case _ => false
  }

  /** The segments whose keys may be lost. */
  function Lost(how: Origin): set<nat> { if how.Merge? || how.Forced? then how.gone else {} }

  /** Keys are lost only from segments without writers, not about to expire, or from one that is too old. */
  ghost predicate MayLose(st: Site, how: Origin, tooOld: nat -> bool) {
    st.Fits(|st.wref|) && forall s :: s in Lost(how) ==> s < |st.wref| && (st.Movable(s) || tooOld(s))
  }

  lemma TooOldLost(st: Site, b: nat, s: nat, tooOld: nat -> bool)
    requires st.Fits(|st.wref|) && s < |st.wref| && tooOld(s)
    ensures MayLose(st, Forced(b, {s}), tooOld)
  {
  }

  lemma MoreMayLose(st: Site, how: Origin, tooOld: nat -> bool)
    requires MayLose(st, how, _ => false)
    ensures MayLose(st, how, tooOld)
  {
  }

  lemma NothingLost(st: Site, how: Origin, tooOld: nat -> bool, lists: seq<seq<int>>)
    requires st.Fits(|st.wref|) && Lost(how) == {}
    ensures MayLose(st, how, tooOld) && AfterMerge(lists, Pool) == lists == AfterMerge(lists, Present)
  {
  }

  ghost function AfterMerge(lists: seq<seq<int>>, how: Origin): seq<seq<int>> {
    match how
    case Merge(b, p, m, into, _) =>
      if b < |lists| && p + m <= |lists[b]|
      then lists[b := lists[b][..p] + (if into == -1 then [] else [into]) + lists[b][p + m..]] else lists
    case Forced(b, _) => if b < |lists| && lists[b] != [] then lists[b := lists[b][1..]] else lists
    case _ => lists
  }

  /** How a reservation ends that fits into a segment or not, finds room or not, and else depends on the supply. */
  predicate Ending(fits: bool, room: bool, src: Supply, flushPast: bool, r: Reserved) {
    match r
    case Oversized => !fits
    case NoMemory => fits && !room && src.Nowhere?
    case Stuck => fits && !room && src.Drained?
    case Unopened(_) => fits && !room && !src.Nowhere? && !src.Drained? && !flushPast
    case Ok(_) => fits && (room || (!src.Nowhere? && !src.Drained? && flushPast))
  }

  datatype Reserved = Ok(loc: Loc) | Oversized | NoMemory | Stuck | Unopened(seg: nat)

  ghost predicate InRange1(a: seq<int>, n: nat) {
    |a| == N_BUCKET && forall b :: 0 <= b < N_BUCKET ==> -1 <= a[b] < n
  }

  /** A merge job: the list it works on, as it was, and the store and free count it began with. */
  datatype Job = Job(b: nat, pre: seq<int>, qs: seq<int>, post: seq<int>, lists: seq<seq<int>>,
                     nFree: int, w0: World, keep: Loc -> bool, base: map<int, nat>)
  {
    ghost predicate Ok(n: nat) {
      && b < N_BUCKET == |lists| && 0 < |qs| && 0 < |post| && lists[b] == pre + qs + post
      && NoDup(lists[b]) && InRange(lists[b], n) && InRange(qs, n)
    }

    ghost function P(s: int, segSize: nat): Plan
      requires s >= 0
    {
      Plan(s, segSize, keep, base)
    }

    /** The base of each segment is the level up to which those before it fill the merged one. */
    ghost predicate Based(segSize: nat) {
      && w0.Sound() && TiledAll(w0, qs)
      && forall i :: 0 <= i < |qs| ==> qs[i] in base && base[qs[i]] == Level(w0, segSize, keep, qs, i)
    }

    ghost function Chain(s: int, m: nat): seq<int>
      requires m <= |qs|
    {
      pre + (if m == 0 then qs else [s] + qs[m..]) + post
    }

    ghost function Held(s: int, m: nat): int
      requires |qs| > 0
    {
      if m == 0 then s else qs[0]
    }
  }

  /** The list the job works on had segments of one ttl, in order of creation. */
  ghost predicate InOneOrder(j: Job) {
    && j.b < |j.lists| && SortedAlong(j.w0.at, j.lists[j.b])
    && forall x :: x in j.lists[j.b] ==> 0 <= x < |j.w0.ttl| && j.b < N_BUCKET && j.w0.ttl[x] == BucketTtl(j.b)
  }

  lemma JobInOrder(j: Job)
    requires j.b < |j.lists| && j.b < N_BUCKET && SortedAlong(j.w0.at, j.lists[j.b])
    requires forall x :: x in j.lists[j.b] ==> 0 <= x < |j.w0.ttl| && j.w0.ttl[x] == BucketTtl(j.b)
    ensures InOneOrder(j)
  {
  }

  /** What was merged is no older than the first one merged, whose age the merged segment has. */
  lemma MergedAge(j: Job, m: nat, w: World, s: nat)
    requires InOneOrder(j) && 0 < m <= |j.qs| && j.Ok(|w.at|)
    requires |j.w0.at| == |j.w0.ttl| == |w.at| == |w.ttl| && s < |w.at|
    requires |w.mem| == |j.w0.mem| == |w.at| && w.pending == j.w0.pending && w.mem == j.w0.mem[s := w.mem[s]]
    requires w.at == j.w0.at[s := j.w0.at[j.qs[0]]] && w.ttl == j.w0.ttl[s := j.w0.ttl[j.qs[0]]]
    ensures Inherited(j.w0, w, Done(Merged(j.qs, m), 0, 0), s)
  {
    var q := j.lists[j.b];
    assert q[|j.pre|] == j.qs[0] && j.qs[0] in q;
    forall t: nat | t < |w.at| && t in Merged(j.qs, m) ensures w.at[s] <= j.w0.at[t] && w.ttl[s] == j.w0.ttl[t] {
      var i :| 0 <= i < m && j.qs[i] == t;
      assert q[|j.pre| + i] == t && t in q;
    }
  }

  ghost function Merged(qs: seq<int>, m: nat): set<nat>
    requires m <= |qs|
  {
    set i | 0 <= i < m && qs[i] >= 0 :: qs[i] as nat
  }

  /** The job of merging segments that follow each other in bucket b's list, from position p on. */
  lemma RunJob(b: nat, p: nat, qs: seq<int>, lists: seq<seq<int>>, n: nat, nFree: int, w0: World,
               keep: Loc -> bool, segSize: nat)
    returns (j: Job)
    requires w0.Sound() && TiledAll(w0, qs)
    requires b < |lists| == N_BUCKET && NoDup(lists[b]) && InRange(lists[b], n)
    requires 0 < |qs| && p + |qs| < |lists[b]| && qs == lists[b][p..p + |qs|]
    ensures j.Ok(n) && j.b == b && j.lists == lists && j.qs == qs && qs[0] == lists[b][p] && qs[0] in qs
    ensures j.nFree == nFree && j.w0 == w0 && j.keep == keep && j.Based(segSize)
    ensures j.pre == lists[b][..p] && j.post == lists[b][p + |qs|..]
  {
    hide World.Sound, World.Look, Level, Levels;
    var q := lists[b];
    j := Job(b, q[..p], qs, q[p + |qs|..], lists, nFree, w0, keep, Levels(w0, segSize, keep, qs, |qs|));
    assert q == j.pre + j.qs + j.post;
    assert qs[0] in qs;
    forall i | 0 <= i < |qs| ensures 0 <= qs[i] < n {
      assert qs[i] == q[p + i];
    }
    forall i, k | 0 <= i < k < |qs| ensures qs[i] != qs[k] {
      assert qs[i] == q[p + i] && qs[k] == q[p + k];
    }
    forall i | 0 <= i < |qs| ensures qs[i] in j.base && j.base[qs[i]] == Level(w0, segSize, keep, qs, i) {
      LevelsAre(w0, segSize, keep, qs, |qs|, i);
    }
  }

  lemma JobAfter(j: Job, p: nat, m: nat, kept: bool, s: nat)
    requires j.b < |j.lists| && p + |j.qs| <= |j.lists[j.b]| && m <= |j.qs| && (!kept ==> m == |j.qs|)
    requires j.pre == j.lists[j.b][..p] && j.qs == j.lists[j.b][p..p + |j.qs|] && j.post == j.lists[j.b][p + |j.qs|..]
    ensures AfterMerge(j.lists, Merge(j.b, p, m, if kept then s else -1, Merged(j.qs, m)))
         == j.lists[j.b := j.pre + (if kept then [s] + j.qs[m..] else []) + j.post]
  {
    var q := j.lists[j.b];
    assert q[p + m..] == j.qs[m..] + j.post;
    if kept {
      assert j.pre + [s] + q[p + m..] == j.pre + ([s] + j.qs[m..]) + j.post;
    } else {
      assert j.pre + [] + q[p + m..] == j.pre + [] + j.post;
    }
  }

  lemma FreeCount(l: Links, w: Spelling)
    requires ListsOk(l, w)
    ensures l.nFree >= 0
  {
  }

  /** A segment of the free pool is in no list. */
  lemma TakenApart(l: Links, w: Spelling, b: nat, s: nat)
    requires ListsOk(l, w) && b < |w.chains| && s < |w.owner| && w.owner[s] == FREE
    ensures s !in w.chains[b]
  {
    assert ChainOk(l, w, b);
  }

  lemma StartProgress(j: Job, w': World, s: nat, segSize: nat)
    requires j.w0.Sound() && w'.Sound() && s < |j.w0.ends| == |w'.ends| && |w'.mem| == |j.w0.mem|
    requires SameLooks(j.w0, w') && w'.ends[s] == j.w0.ends[s]
    ensures Progress(j.w0, w', Done(Merged(j.qs, 0), 0, 0), j.P(s, segSize))
  {
    hide World.Sound, World.Look, SameLooks, Progress;
    var p := j.P(s, segSize);
    ProgressStart(j.w0, 0, p);
    ProgressSame(j.w0, j.w0, w', Done({}, 0, 0), 0, p);
    assert Merged(j.qs, 0) == {};
  }

  lemma LevelZero(j: Job, segSize: nat)
    requires j.Based(segSize)
    ensures TiledAll(j.w0, j.qs) && Level(j.w0, segSize, j.keep, j.qs, 0) == 0
  {
  }

  lemma SliceInRange(q: seq<int>, p: nat, qs: seq<int>, n: nat)
    requires InRange(q, n) && p + |qs| <= |q| && qs == q[p..p + |qs|]
    ensures InRange(qs, n)
  {
    forall i | 0 <= i < |qs| ensures 0 <= qs[i] < n {
      assert qs[i] == q[p + i];
    }
  }

  lemma MergedIn(q: seq<int>, p: nat, qs: seq<int>, m: nat)
    requires p + |qs| <= |q| && qs == q[p..p + |qs|] && m <= |qs|
    ensures forall s :: s in Merged(qs, m) ==> s in qs && s in q
  {
  }

  lemma MergedMore(qs: seq<int>, m: nat)
    requires m < |qs| && qs[m] >= 0
    ensures Merged(qs, m + 1) == Merged(qs, m) + {qs[m]}
  {
  }

  lemma InheritsSelf(t: seq<Chain>, d: nat)
    ensures Inherits(t, t, d)
  {
  }

  lemma TiledTiles(c: Cells, segSize: nat, wo: int, e: nat)
    requires SegTiled(c, segSize, wo, e)
    ensures Tiles(c, 0, e)
  {
  }

  /** An item that a walk meets before the end is a whole one. */
  lemma WalkItem(c: Cells, a: nat, e: nat)
    requires Tiles(c, a, e) && a < e
    ensures HasItem(c, a) && ItemOk(c[a].item) && ItemSize(c[a].item) > 0
  {
  }

  lemma LookIsFind(w: World, key: Key, b: nat)
    requires w.Sound() && b == BucketFor(w.hs, |w.t|, key)
    ensures Backed(w.mem, w.t[b]) && w.Look(key) == Find(w.mem, key, w.hs.g(key), w.t[b])
  {
  }

  lemma MarksLess(t: seq<Chain>, pending: Chain, del: set<Loc>, gone: set<Loc>)
    requires MarksOk(t, pending, del)
    ensures MarksOk(t, pending, del - gone)
  {
  }

  lemma CopyUnnames(w: World, b: nat, c': Chain, it: Item, l: Loc, l': Loc)
    requires w.Sound() && b == BucketFor(w.hs, |w.t|, it.key) && l != l'
    requires InMem(w.mem, l) && ItemAt(w.mem, l) == it && Backed(w.mem, w.t[b])
    requires c' == Relinked(w.mem, it.key, w.hs.g(it.key), w.t[b], l, l')
    ensures Unnamed(w.t[b := c'], l)
  {
    RelinkUnnames(w.mem, w.ends, w.hs, w.t, w.t[b := c'], b, it.key, l, l');
  }

  /** What relinking an item does to index, counters and deleted bits. */
  lemma RelinkWorld(w: World, del: set<Loc>, key: Key, l: Loc, l': Loc, b: nat, c': Chain,
                    live': seq<int>, bytes': seq<int>) returns (w': World)
    requires w.Sound() && b == BucketFor(w.hs, |w.t|, key) && MarksOk(w.t, w.pending, del)
    requires InMem(w.mem, l) && InMem(w.mem, l') && l.seg != l'.seg
    requires ItemAt(w.mem, l).key == key && ItemAt(w.mem, l') == ItemAt(w.mem, l)
    requires Unnamed(w.t, l') && l' !in del && Backed(w.mem, w.t[b])
    requires forall i :: 0 <= i < |w.pending| && w.pending[i].Entry? ==> w.pending[i].loc != l'
    requires c' == Relinked(w.mem, key, w.hs.g(key), w.t[b], l, l') && Backed(w.mem, c')
    requires w.Look(key) == Some(l) ==>
               && AtStart(w.mem, w.ends, l') && Backed(w.mem, w.t[b] + [Entry(w.hs.g(key), 0, l')])
               && Balanced(w.mem, w.t[b] + [Entry(w.hs.g(key), 0, l')], w.live, w.bytes, c', live', bytes')
    requires w.Look(key) != Some(l) ==> Balanced(w.mem, w.t[b], w.live, w.bytes, c', live', bytes')
    ensures |live'| == |bytes'| == |w.mem|
    ensures w' == w.(t := w.t[b := c'],
                     live := if w.Look(key) == Some(l) then PlusOne(live', l') else live',
                     bytes := if w.Look(key) == Some(l) then PlusBytes(w.mem, bytes', l') else bytes')
    ensures w'.Sound() && MarksOk(w'.t, w.pending, del + Dropped(w.t[b], c'))
    ensures Unnamed(w'.t, l) && Inherits(w'.t, w.t, l'.seg)
    ensures forall k :: w'.Look(k) == if k == key && w.Look(key) == Some(l) then Some(l') else w.Look(k)
  {
    hide World.Sound, World.Look, BalancedFor, Dropped, Unnamed, MarksOk, Backed, Relinked, OnceAt, Inherits, AtStart;
    LookIsFind(w, key, b);
    var p := RelinkedOnce(w.mem, key, w.hs.g(key), w.t[b], l, l');
    CopyUnnames(w, b, c', ItemAt(w.mem, l), l, l');
    if w.Look(key) == Some(l) {
      var x := Entry(w.hs.g(key), 0, l');
      MarksStep(w, del, b, c', x, p, w.pending);
      OnceInherits(w.t, b, c', x, p, l'.seg);
      SoundRelink(w, key, l, l', b, c', live', bytes');
      w' := w.(t := w.t[b := c'], live := PlusOne(live', l'), bytes := PlusBytes(w.mem, bytes', l'));
    } else {
      MarksStep(w, del, b, c', Empty, |w.t[b]|, w.pending);
      OnceInherits(w.t, b, c', Empty, |w.t[b]|, l'.seg);
      SoundRelinkStale(w, key, l, l', b, c', live', bytes');
      w' := w.(t := w.t[b := c'], live := live', bytes := bytes');
    }
  }

  /** What inserting an item does to index, counters and deleted bits. */
  lemma InsertWorld(w: World, del: set<Loc>, key: Key, i: nat, b: nat, c': Chain,
                    live': seq<int>, bytes': seq<int>, wref': seq<int>) returns (w': World)
    requires w.Sound() && b == BucketFor(w.hs, |w.t|, key) && |w.t[b]| > 0 && |w.t[b]| % 7 == 0
    requires i < |w.pending| && w.pending[i].Entry? && ItemAt(w.mem, w.pending[i].loc).key == key
    requires MarksOk(w.t, w.pending, del) && Unnamed(w.t, w.pending[i].loc) && Backed(w.mem, w.t[b])
    requires c' == Inserted(w.mem, key, w.hs.g(key), w.t[b], w.pending[i].loc) && Backed(w.mem, c')
    requires Backed(w.mem, w.t[b] + [Entry(w.hs.g(key), 0, w.pending[i].loc)])
    requires Balanced(w.mem, w.t[b] + [Entry(w.hs.g(key), 0, w.pending[i].loc)], w.live, w.bytes, c', live', bytes')
    requires wref' == LessOne(w.wref, w.pending[i].loc)
    ensures |live'| == |bytes'| == |wref'| == |w.mem|
    ensures w' == w.(t := w.t[b := c'], pending := w.pending[i := Empty], live := live', bytes := bytes',
                     wref := wref', newest := w.newest[key := ItemAt(w.mem, w.pending[i].loc)])
    ensures w'.Sound() && MarksOk(w'.t, w'.pending, del + Dropped(w.t[b], c'))
    ensures forall k :: w'.Look(k) == if k == key then Some(w.pending[i].loc) else w.Look(k)
  {
    hide World.Look, BalancedFor, Dropped, Unnamed, Backed, Inserted, OnceAt, Entries, Fresh, Counted, WritersOk;
    var l := w.pending[i].loc;
    SoundInsert(w, key, i, b, c', live', bytes', wref');
    var p := InsertedOnce(w.mem, key, w.hs.g(key), w.t[b], l);
    MarksStep(w, del, b, c', Entry(w.hs.g(key), 0, l), p, w.pending[i := Empty]);
    w' := w.(t := w.t[b := c'], pending := w.pending[i := Empty], live := live', bytes := bytes',
             wref := wref', newest := w.newest[key := ItemAt(w.mem, l)]);
  }

  /** What writing an item does to memory, counters and deleted bits. */
  lemma PlaceWorld(w: World, del: set<Loc>, s: nat, segSize: nat, it: Item, e: nat, x: Slot) returns (w': World)
    requires w.Sound() && s < |w.mem| && ItemOk(it) && e == w.ends[s] && MarksOk(w.t, w.pending, del)
    requires SegTiled(w.mem[s], segSize, e, e) && e + ItemSize(it) <= segSize && x.Entry? && x.loc == Loc(s, e)
    requires |w.mem| == |w.ends| == |w.live| == |w.bytes| == |w.wref|
    ensures var mem := Written(w.mem, s, e, it);
            w' == w.(mem := mem, ends := w.ends[s := e + ItemSize(it)], pending := w.pending + [x],
                     live := PlusOne(w.live, x.loc), bytes := PlusBytes(mem, w.bytes, x.loc),
                     wref := PlusOne(w.wref, x.loc))
    ensures w'.Sound() && MarksOk(w'.t, w'.pending, del - {x.loc})
    ensures SameLooks(w, w')
    ensures SegTiled(w'.mem[s], segSize, e + ItemSize(it), e + ItemSize(it))
  {
    hide World.Sound, World.Look, SegTiled, Tiles, AtStart, Unnamed;
    var e' := e + ItemSize(it);
    var w1 := w.(mem := Written(w.mem, s, e, it), ends := w.ends[s := e']);
    SoundAppend(w, s, segSize, it, true, e, e', w1);
    SoundDefine(w1, x);
    w' := w1.(pending := w.pending + [x], live := PlusOne(w.live, x.loc),
              bytes := PlusBytes(w1.mem, w.bytes, x.loc), wref := PlusOne(w.wref, x.loc));
    forall k | w.Look(k).Some? ensures ItemAt(w'.mem, w.Look(k).value) == ItemAt(w.mem, w.Look(k).value) {
      SameAfterWrite(w, k, s, it);
    }
    WaitingAppend(w, s, segSize, it, w');
  }

  lemma HeadNext(prev: seq<int>, next: seq<int>, q: seq<int>)
    requires Linked(prev, next, q) && q != []
    ensures 0 <= q[0] < |next| && next[q[0]] == Head(q[1..])
  {
    assert next[q[0]] == After(q, 0);
  }

  lemma TiledStart(w: World, s: nat, segSize: nat, wo: int)
    requires w.Sound() && s < |w.mem| && SegTiled(w.mem[s], segSize, wo, w.ends[s])
    ensures Ahead(w, s, 0) && LostOnly(w, w, s)
  {
    AheadStart(w, s);
  }

  lemma LostMore(w: World, w1: World, w2: World, s: nat, key: Key, l: Loc)
    requires w.Sound() && w1.Sound() && w2.Sound() && LostOnly(w, w1, s) && l.seg == s
    requires forall k :: w2.Look(k) == if k == key && w1.Look(key) == Some(l) then None else w1.Look(k)
    ensures LostOnly(w, w2, s)
  {
  }

  lemma WalkDone(w: World, s: nat, a: nat, segSize: nat, wo: int)
    requires w.Sound() && s < |w.mem| && Ahead(w, s, a) && w.wref[s] == 0
    requires SegTiled(w.mem[s], segSize, wo, w.ends[s])
    requires w.live[s] == 0 || (a in w.mem[s] && w.mem[s][a].Zero?) || a >= Limit(wo, segSize)
    ensures Vacant(w, s)
  {
    VacantIffZero(w, s);
    if w.live[s] != 0 {
      CountedFilled(w, s);
      if a >= Limit(wo, segSize) {
        WalkStops(w.mem[s], segSize, wo, w.ends[s], a);
      }
      AheadDone(w, s);
    }
  }

  lemma LostOnlySelf(w: World, s: nat)
    requires w.Sound()
    ensures LostOnly(w, w, s)
  {
  }

  /** A segment that counts bytes has items. */
  lemma BytesFilled(w: World, s: nat)
    requires w.Sound() && s < |w.mem| && w.bytes[s] != 0
    ensures w.ends[s] > 0
  {
    if w.ends[s] == 0 {
      EmptyVacant(w, s);
      VacantIffZero(w, s);
    }
  }

  /** A segment that counts items has some. */
  lemma CountedFilled(w: World, s: nat)
    requires w.Sound() && s < |w.mem| && w.live[s] != 0
    ensures w.ends[s] > 0
  {
    if w.ends[s] == 0 {
      EmptyVacant(w, s);
      VacantIffZero(w, s);
    }
  }

  /** A walk that stops has come to the end of the items. */
  lemma WalkEnd(w: World, s: nat, a: nat, segSize: nat, wo: int)
    requires s < |w.mem| && Ahead(w, s, a) && SegTiled(w.mem[s], segSize, wo, w.ends[s]) && w.ends[s] > 0
    requires (a in w.mem[s] && w.mem[s][a].Zero?) || a >= Limit(wo, segSize)
    ensures a == w.ends[s]
  {
    if a >= Limit(wo, segSize) {
      WalkStops(w.mem[s], segSize, wo, w.ends[s], a);
    }
  }

  lemma InsertReady(w: World, b: nat, i: nat, c: Chain, raw: seq<Bucket>, del: set<Loc>)
    requires MarksOk(w.t, w.pending, del)
    requires w.Sound() && b < |w.t| && c == w.t[b] && Scans(raw, c)
    requires i < |w.pending| && w.pending[i].Entry?
    ensures |c| > 0 && |c| % 7 == 0 && w.pending[i].loc.seg < |w.wref| && Unnamed(w.t, w.pending[i].loc)
    ensures w.pending[i].loc !in del
    ensures forall m :: 0 <= m < |c| && c[m].Entry? ==> c[m].loc != w.pending[i].loc
  {
    assert Unnamed(w.t, w.pending[i].loc);
  }
}
