/**
 * The operations of the hash index on the bucket chain a key hashes to. A cursor runs over
 * the item slots, bucket by bucket; what the loops make of the chain is stated on its scan
 * order. An operation runs under its chain's lock.
 */
module HashTable {
  import opened Basics
  import opened SegItems
  import opened SegIndex
  import opened SegBuckets
  import opened SegHeap

  /**
   * Counters and deleted bits have kept pace with a chain that is now c', and was c when the
   * counters were live and bytes and the deleted items del. The entries of extra have been
   * given slots although the counters count their items already.
   */
  ghost predicate Account(heap: Heap, c: Chain, extra: Chain, live: seq<int>, bytes: seq<int>, del: set<Loc>, c': Chain)
    reads heap`cells, heap`nLive, heap`liveBytes, heap`deleted
  {
    && Backed(heap.cells, c + extra) && Backed(heap.cells, c') && |c| <= |c'|
    && Balanced(heap.cells, c + extra, live, bytes, c', heap.nLive, heap.liveBytes)
    && heap.deleted == del + Dropped(c, c')
  }

  lemma DroppedMore(c: Chain, c': Chain, i: nat, x: Slot)
    requires i < |c| <= |c'| && c'[i] == c[i] && c[i].Entry? && x != c[i]
    ensures Dropped(c, c'[i := x]) == Dropped(c, c') + {c[i].loc}
  {
    assert c'[i := x][i] != c[i];
    forall l | l in Dropped(c, c') + {c[i].loc} ensures l in Dropped(c, c'[i := x]) {
      if l in Dropped(c, c') {
        var m :| 0 <= m < |c| && c[m].Entry? && c'[m] != c[m] && c[m].loc == l;
        assert c'[i := x][m] != c[m];
      }
    }
  }

  /** An item loses its slot: its segment counts it no more and its header is marked. */
  method ItemFree(heap: Heap, l: Loc)
    requires InMem(heap.cells, l) && |heap.nLive| == |heap.liveBytes| == |heap.cells|
    modifies heap`nLive, heap`liveBytes, heap`deleted
    ensures heap.nLive == LessOne(old(heap.nLive), l)
    ensures heap.liveBytes == LessBytes(heap.cells, old(heap.liveBytes), l)
    ensures heap.deleted == old(heap.deleted) + {l}
  {
    var sz := ItemSize(ItemAt(heap.cells, l));
    heap.liveBytes := heap.liveBytes[l.seg := heap.liveBytes[l.seg] - sz];
    heap.nLive := heap.nLive[l.seg := heap.nLive[l.seg] - 1];
    heap.deleted := heap.deleted + {l};
  }

  /** Empty an item slot and free its item. */
  method Drop(heap: Heap, raw: seq<Bucket>, k: nat, i: nat, ghost c': Chain,
              ghost c: Chain, ghost extra: Chain, ghost live: seq<int>, ghost bytes: seq<int>, ghost del: set<Loc>)
    returns (raw': seq<Bucket>)
    requires Scans(raw, c') && k < |raw| && AtSlot(k, i, |raw|)
    requires Account(heap, c, extra, live, bytes, del, c')
    requires 7 * k + i - 1 < |c| && c[7 * k + i - 1] == c'[7 * k + i - 1] && c[7 * k + i - 1].Entry?
    modifies heap`nLive, heap`liveBytes, heap`deleted
    ensures |raw'| == |raw| && Scans(raw', c'[7 * k + i - 1 := Empty])
    ensures Account(heap, c, extra, live, bytes, del, c'[7 * k + i - 1 := Empty])
  {
    ghost var j := 7 * k + i - 1;
    ScanStore(raw, c', k, i, Empty);
    BalancedFree(heap.cells, c + extra, live, bytes, c', heap.nLive, heap.liveBytes, j);
    DroppedMore(c, c', j, Empty);
    ItemFree(heap, raw[k][i].loc);
    raw' := raw[k := raw[k][i := Empty]];
  }

  /** Give an entry's slot to x and free the entry's item. */
  method Supersede(heap: Heap, raw: seq<Bucket>, k: nat, i: nat, x: Slot, ghost c': Chain,
                   ghost c: Chain, ghost live: seq<int>, ghost bytes: seq<int>, ghost del: set<Loc>)
    returns (raw': seq<Bucket>)
    requires Scans(raw, c') && k < |raw| && AtSlot(k, i, |raw|)
    requires Account(heap, c, [], live, bytes, del, c')
    requires 7 * k + i - 1 < |c| && c[7 * k + i - 1] == c'[7 * k + i - 1] && c[7 * k + i - 1].Entry?
    requires x.Entry? && x != c[7 * k + i - 1] && SlotBacked(heap.cells, x)
    modifies heap`nLive, heap`liveBytes, heap`deleted
    ensures |raw'| == |raw| && Scans(raw', c'[7 * k + i - 1 := x])
    ensures Account(heap, c, [x], live, bytes, del, c'[7 * k + i - 1 := x])
  {
    ghost var j := 7 * k + i - 1;
    ScanStore(raw, c', k, i, x);
    assert c + [] == c;
    ghost var d := c'[j := Empty];
    BalancedFree(heap.cells, c, live, bytes, c', heap.nLive, heap.liveBytes, j);
    DroppedMore(c, c', j, x);
    ItemFree(heap, raw[k][i].loc);
    BalancedStore(heap.cells, c, live, bytes, d, heap.nLive, heap.liveBytes, j, x);
    assert d[j := x] == c'[j := x];
    raw' := raw[k := raw[k][i := x]];
  }

  /** Put x into an empty slot of a chain that has not changed yet. */
  method FillSlot(heap: Heap, raw: seq<Bucket>, k: nat, i: nat, x: Slot,
                  ghost c: Chain, ghost live: seq<int>, ghost bytes: seq<int>, ghost del: set<Loc>)
    returns (raw': seq<Bucket>)
    requires Scans(raw, c) && k < |raw| && AtSlot(k, i, |raw|)
    requires Account(heap, c, [], live, bytes, del, c)
    requires 7 * k + i - 1 < |c| && c[7 * k + i - 1] == Empty && x.Entry? && SlotBacked(heap.cells, x)
    ensures |raw'| == |raw| && Scans(raw', c[7 * k + i - 1 := x])
    ensures Account(heap, c, [x], live, bytes, del, c[7 * k + i - 1 := x])
  {
    ghost var j := 7 * k + i - 1;
    ScanStore(raw, c, k, i, x);
    assert c + [] == c;
    BalancedStore(heap.cells, c, live, bytes, c, heap.nLive, heap.liveBytes, j, x);
    assert Dropped(c, c[j := x]) == Dropped(c, c);
    raw' := raw[k := raw[k][i := x]];
  }

  lemma GrowAccount(heap: Heap, c: Chain, x: Slot, live: seq<int>, bytes: seq<int>, del: set<Loc>)
    requires Account(heap, c, [], live, bytes, del, c) && live == heap.nLive && bytes == heap.liveBytes
    requires SlotBacked(heap.cells, x)
    ensures Account(heap, c, [x], live, bytes, del, c + [x, Empty, Empty, Empty, Empty, Empty, Empty])
  {
    assert c + [] == c;
    BalancedGrow(heap.cells, c, live, bytes, x);
    assert Dropped(c, c + [x, Empty, Empty, Empty, Empty, Empty, Empty]) == Dropped(c, c);
  }

  lemma AccountStart(heap: Heap, c: Chain)
    requires Backed(heap.cells, c) && |heap.nLive| == |heap.liveBytes| == |heap.cells|
    ensures Account(heap, c, [], heap.nLive, heap.liveBytes, heap.deleted, c)
  {
    assert Dropped(c, c) == {} && c + [] == c;
  }

  /** Remove every entry of a key. */
  method Delete(heap: Heap, raw: seq<Bucket>, ghost c: Chain, key: Key, tag: nat)
    returns (raw': seq<Bucket>, found: bool)
    requires Scans(raw, c) && Backed(heap.cells, c) && |heap.nLive| == |heap.liveBytes| == |heap.cells|
    modifies heap`nLive, heap`liveBytes, heap`deleted
    ensures Scans(raw', Deleted(heap.cells, key, tag, c))
    ensures found <==> Find(heap.cells, key, tag, c).Some?
    ensures Account(heap, c, [], old(heap.nLive), old(heap.liveBytes), old(heap.deleted),
                    Deleted(heap.cells, key, tag, c))
  {
    hide Scans;
    ScanSize(raw, c);
    hide Account;
    ghost var mem := heap.cells;
    ghost var live, bytes, del := heap.nLive, heap.liveBytes, heap.deleted;
    AccountStart(heap, c);
    var n := |raw|;
    raw', found := raw, false;
    var k: nat, i: nat := 0, 1;
    ghost var j: nat, cur := 0, c;
    assert Wipe(mem, key, tag, c, 0, 0) == c;
    while k < n
      invariant AtSlot(k, i, n) && j == Position(k, i, n)
      invariant |raw'| == n && Scans(raw', cur) && cur == Wipe(mem, key, tag, c, 0, j)
      invariant Account(heap, c, [], live, bytes, del, cur)
      invariant found <==> exists m :: 0 <= m < j && Hit(mem, key, tag, c[m])
      decreases 7 * n - j
    {
      WipeStep(mem, key, tag, c, 0, j);
      ScanAt(raw', cur, k, i);
      if Hit(heap.cells, key, tag, raw'[k][i]) {
        raw' := Drop(heap, raw', k, i, cur, c, [], live, bytes, del);
        cur := cur[j := Empty];
        found := true;
      }
      var r := Next(k, i, n);
      k, i := r.0, r.1;
      j := j + 1;
    }
  }

  /** An eviction that has come to position j. */
  ghost predicate EvictAt(heap: Heap, c: Chain, key: Key, tag: nat, l: Loc, j: nat, first: bool, found: bool,
                          live: seq<int>, bytes: seq<int>, del: set<Loc>, cur: Chain)
    reads heap`cells, heap`nLive, heap`liveBytes, heap`deleted
  {
    && Backed(heap.cells, c) && j <= |c|
    && var f := FirstHitFrom(heap.cells, key, tag, c, 0);
       && (first <==> j <= f) && cur == EvictedTo(heap.cells, key, tag, c, l, f, j)
       && (found <==> exists m :: 0 <= m < j && Hit(heap.cells, key, tag, c[m]) && c[m].loc == l)
       && Account(heap, c, [], live, bytes, del, cur)
  }

  method EvictSlot(heap: Heap, raw: seq<Bucket>, k: nat, i: nat, key: Key, tag: nat, l: Loc, first: bool, found: bool,
                   ghost c: Chain, ghost live: seq<int>, ghost bytes: seq<int>, ghost del: set<Loc>, ghost cur: Chain)
    returns (raw': seq<Bucket>, first': bool, found': bool, ghost cur': Chain)
    requires Scans(raw, cur) && k < |raw| && AtSlot(k, i, |raw|) && |c| == 7 * |raw|
    requires EvictAt(heap, c, key, tag, l, 7 * k + i - 1, first, found, live, bytes, del, cur)
    modifies heap`nLive, heap`liveBytes, heap`deleted
    ensures |raw'| == |raw| && Scans(raw', cur')
    ensures EvictAt(heap, c, key, tag, l, 7 * k + i, first', found', live, bytes, del, cur')
  {
    hide Scans, Account, Evicted, EvictedTo;
    ghost var j, f := 7 * k + i - 1, FirstHitFrom(heap.cells, key, tag, c, 0);
    EvictedStep(heap.cells, key, tag, c, l, f, j);
    ScanAt(raw, cur, k, i);
    raw', first', found', cur' := raw, first, found, cur;
    var x := raw[k][i];
    if Hit(heap.cells, key, tag, x) {
      if !first || x.loc == l {
        raw' := Drop(heap, raw, k, i, cur, c, [], live, bytes, del);
        cur' := cur[j := Empty];
      }
      first', found' := false, found || x.loc == l;
    }
  }

  /**
   * Remove the item at l and every stale entry of its key. If the first entry found is not
   * the one for l, the item is outdated and that entry stays.
   */
  method Evict(heap: Heap, raw: seq<Bucket>, ghost c: Chain, key: Key, tag: nat, l: Loc)
    returns (raw': seq<Bucket>, found: bool)
    requires Scans(raw, c) && Backed(heap.cells, c) && |heap.nLive| == |heap.liveBytes| == |heap.cells|
    modifies heap`nLive, heap`liveBytes, heap`deleted
    ensures Scans(raw', Evicted(heap.cells, key, tag, c, l))
    ensures found <==> exists m :: 0 <= m < |c| && Hit(heap.cells, key, tag, c[m]) && c[m].loc == l
    ensures Account(heap, c, [], old(heap.nLive), old(heap.liveBytes), old(heap.deleted),
                    Evicted(heap.cells, key, tag, c, l))
  {
    ScanSize(raw, c);
    hide Scans, Account, Evicted, EvictedTo;
    ghost var live, bytes, del := heap.nLive, heap.liveBytes, heap.deleted;
    AccountStart(heap, c);
    EvictedEnds(heap.cells, key, tag, c, l, FirstHitFrom(heap.cells, key, tag, c, 0));
    var n := |raw|;
    raw', found := raw, false;
    var first := true;
    var k: nat, i: nat := 0, 1;
    ghost var cur := c;
    while k < n
      invariant AtSlot(k, i, n) && |raw'| == n && Scans(raw', cur)
      invariant EvictAt(heap, c, key, tag, l, Position(k, i, n), first, found, live, bytes, del, cur)
      decreases 7 * n - Position(k, i, n)
    {
      raw', first, found, cur := EvictSlot(heap, raw', k, i, key, tag, l, first, found, c, live, bytes, del, cur);
      var r := Next(k, i, n);
      k, i := r.0, r.1;
    }
  }

  /** A relinking that has come to position j. */
  ghost predicate RelinkAt(heap: Heap, c: Chain, key: Key, tag: nat, l: Loc, l': Loc, j: nat, first: bool,
                           current: bool, live: seq<int>, bytes: seq<int>, del: set<Loc>, cur: Chain)
    reads heap`cells, heap`nLive, heap`liveBytes, heap`deleted
  {
    && Backed(heap.cells, c) && j <= |c| && InMem(heap.cells, l')
    && var f := FirstHitFrom(heap.cells, key, tag, c, 0);
       && (first <==> j <= f) && (current <==> f < j && c[f].loc == l)
       && cur == RelinkedTo(heap.cells, key, tag, c, l, l', f, j)
       && Account(heap, c, if current then [Entry(tag, 0, l')] else [], live, bytes, del, cur)
  }

  method RelinkSlot(heap: Heap, raw: seq<Bucket>, k: nat, i: nat, key: Key, tag: nat, l: Loc, l': Loc,
                    first: bool, current: bool,
                    ghost c: Chain, ghost live: seq<int>, ghost bytes: seq<int>, ghost del: set<Loc>, ghost cur: Chain)
    returns (raw': seq<Bucket>, first': bool, current': bool, ghost cur': Chain)
    requires Scans(raw, cur) && k < |raw| && AtSlot(k, i, |raw|) && |c| == 7 * |raw| && l' != l
    requires RelinkAt(heap, c, key, tag, l, l', 7 * k + i - 1, first, current, live, bytes, del, cur)
    modifies heap`nLive, heap`liveBytes, heap`deleted
    ensures |raw'| == |raw| && Scans(raw', cur')
    ensures RelinkAt(heap, c, key, tag, l, l', 7 * k + i, first', current', live, bytes, del, cur')
  {
    hide Scans, Account, Relinked, RelinkedTo;
    ghost var j, f := 7 * k + i - 1, FirstHitFrom(heap.cells, key, tag, c, 0);
    RelinkedStep(heap.cells, key, tag, c, l, l', f, j);
    ScanAt(raw, cur, k, i);
    raw', first', current', cur' := raw, first, current, cur;
    if Hit(heap.cells, key, tag, raw[k][i]) {
      if !first {
        raw' := Drop(heap, raw, k, i, cur, c, if current then [Entry(tag, 0, l')] else [], live, bytes, del);
        cur' := cur[j := Empty];
      } else if raw[k][i].loc == l {
        raw' := Supersede(heap, raw, k, i, Entry(tag, 0, l'), cur, c, live, bytes, del);
        current', cur' := true, cur[j := Entry(tag, 0, l')];
      }
      first' := false;
    }
  }

  /**
   * The item at l has been copied to l'. If its entry is the first one of its key, the entry
   * now names the copy; otherwise the item is outdated. Later entries of the key go.
   */
  method Relink(heap: Heap, raw: seq<Bucket>, ghost c: Chain, key: Key, tag: nat, l: Loc, l': Loc)
    returns (raw': seq<Bucket>, current: bool)
    requires Scans(raw, c) && Backed(heap.cells, c) && |heap.nLive| == |heap.liveBytes| == |heap.cells|
    requires InMem(heap.cells, l') && l' != l
    modifies heap`nLive, heap`liveBytes, heap`deleted
    ensures Scans(raw', Relinked(heap.cells, key, tag, c, l, l'))
    ensures current <==> Find(heap.cells, key, tag, c) == Some(l)
    ensures Account(heap, c, if current then [Entry(tag, 0, l')] else [],
                    old(heap.nLive), old(heap.liveBytes), old(heap.deleted), Relinked(heap.cells, key, tag, c, l, l'))
  {
    ScanSize(raw, c);
    hide Scans, Account, Relinked, RelinkAt, Find;
    ghost var live, bytes, del := heap.nLive, heap.liveBytes, heap.deleted;
    RelinkBegins(heap, c, key, tag, l, l');
    var n := |raw|;
    raw', current := raw, false;
    var first := true;
    var k: nat, i: nat := 0, 1;
    ghost var cur := c;
    while k < n
      invariant AtSlot(k, i, n) && |raw'| == n && Scans(raw', cur)
      invariant RelinkAt(heap, c, key, tag, l, l', Position(k, i, n), first, current, live, bytes, del, cur)
      decreases 7 * n - Position(k, i, n)
    {
      raw', first, current, cur :=
        RelinkSlot(heap, raw', k, i, key, tag, l, l', first, current, c, live, bytes, del, cur);
      var r := Next(k, i, n);
      k, i := r.0, r.1;
    }
    RelinkEnds(heap, c, key, tag, l, l', first, current, live, bytes, del, cur);
  }

  lemma RelinkBegins(heap: Heap, c: Chain, key: Key, tag: nat, l: Loc, l': Loc)
    requires Backed(heap.cells, c) && |heap.nLive| == |heap.liveBytes| == |heap.cells| && InMem(heap.cells, l')
    ensures RelinkAt(heap, c, key, tag, l, l', 0, true, false, heap.nLive, heap.liveBytes, heap.deleted, c)
  {
    hide Account;
    AccountStart(heap, c);
    RelinkedEnds(heap.cells, key, tag, c, l, l', FirstHitFrom(heap.cells, key, tag, c, 0));
  }

  lemma RelinkEnds(heap: Heap, c: Chain, key: Key, tag: nat, l: Loc, l': Loc, first: bool, current: bool,
                   live: seq<int>, bytes: seq<int>, del: set<Loc>, cur: Chain)
    requires RelinkAt(heap, c, key, tag, l, l', |c|, first, current, live, bytes, del, cur)
    ensures Backed(heap.cells, c) && cur == Relinked(heap.cells, key, tag, c, l, l')
    ensures current <==> Find(heap.cells, key, tag, c) == Some(l)
    ensures Account(heap, c, if current then [Entry(tag, 0, l')] else [], live, bytes, del, cur)
  {
    hide Account;
    RelinkedEnds(heap.cells, key, tag, c, l, l', FirstHitFrom(heap.cells, key, tag, c, 0));
  }

  /** A put that has come to position j without meeting the key; if it has filled a free slot, that is p. */
  ghost predicate PutAt(heap: Heap, c: Chain, key: Key, tag: nat, l: Loc, j: nat, inserted: bool, p: nat,
                        live: seq<int>, bytes: seq<int>, del: set<Loc>, cur: Chain)
    reads heap`cells, heap`nLive, heap`liveBytes, heap`deleted
  {
    && Backed(heap.cells, c) && j <= |c| && InMem(heap.cells, l)
    && heap.nLive == live && heap.liveBytes == bytes && heap.deleted == del
    && (forall m :: 0 <= m < j ==> !Hit(heap.cells, key, tag, c[m]))
    && p <= j && (forall m :: 0 <= m < p ==> !c[m].Empty?)
    && (if inserted then p < j && c[p].Empty? && cur == c[p := Entry(tag, 0, l)] else p == j && cur == c)
    && Account(heap, c, if inserted then [Entry(tag, 0, l)] else [], live, bytes, del, cur)
  }

  /** The key is met at slot (k, i): its entry gives way to the new one, or goes, if that has a slot already. */
  method PutMeets(heap: Heap, raw: seq<Bucket>, k: nat, i: nat, key: Key, tag: nat, l: Loc, inserted: bool,
                  ghost c: Chain, ghost p: nat, ghost live: seq<int>,
                  ghost bytes: seq<int>, ghost del: set<Loc>, ghost cur: Chain)
    returns (raw': seq<Bucket>)
    requires Scans(raw, cur) && k < |raw| && AtSlot(k, i, |raw|) && |c| == 7 * |raw|
    requires PutAt(heap, c, key, tag, l, 7 * k + i - 1, inserted, p, live, bytes, del, cur)
    requires inserted ==> BucketOf(p, |raw|) == k
    requires forall m :: 0 <= m < |c| && c[m].Entry? ==> c[m].loc != l
    requires |raw[k]| == SLOTS && Hit(heap.cells, key, tag, raw[k][i])
    modifies heap`nLive, heap`liveBytes, heap`deleted
    ensures Scans(raw', Inserted(heap.cells, key, tag, c, l))
    ensures Account(heap, c, [Entry(tag, 0, l)], live, bytes, del, Inserted(heap.cells, key, tag, c, l))
  {
    hide Scans, Account, Inserted;
    ghost var j := 7 * k + i - 1;
    SlotBucket(k, i, |raw|);
    ScanAt(raw, cur, k, i);
    if inserted {
      InsertedIs(heap.cells, key, tag, c, l, p, j);
      raw' := Drop(heap, raw, k, i, cur, c, [Entry(tag, 0, l)], live, bytes, del);
    } else {
      InsertedIs(heap.cells, key, tag, c, l, j, j);
      raw' := Supersede(heap, raw, k, i, Entry(tag, 0, l), cur, c, live, bytes, del);
    }
  }

  /** The slot (k, i) does not hold the key: it takes the new entry if it is the first free one. */
  method PutPasses(heap: Heap, raw: seq<Bucket>, k: nat, i: nat, key: Key, tag: nat, l: Loc, inserted: bool,
                   ghost c: Chain, ghost p: nat, ghost live: seq<int>,
                   ghost bytes: seq<int>, ghost del: set<Loc>, ghost cur: Chain)
    returns (raw': seq<Bucket>, inserted': bool, ghost p': nat, ghost cur': Chain)
    requires Scans(raw, cur) && k < |raw| && AtSlot(k, i, |raw|) && |c| == 7 * |raw|
    requires PutAt(heap, c, key, tag, l, 7 * k + i - 1, inserted, p, live, bytes, del, cur)
    requires |raw[k]| == SLOTS && !Hit(heap.cells, key, tag, raw[k][i])
    ensures |raw'| == |raw| && Scans(raw', cur')
    ensures PutAt(heap, c, key, tag, l, 7 * k + i, inserted', p', live, bytes, del, cur')
    ensures inserted' ==> p' == if inserted then p else 7 * k + i - 1
    ensures inserted ==> inserted'
  {
    hide Scans, Account;
    ScanAt(raw, cur, k, i);
    raw', inserted', p', cur' := raw, inserted, if inserted then p else 7 * k + i, cur;
    if !inserted && raw[k][i] == Empty {
      raw' := FillSlot(heap, raw, k, i, Entry(tag, 0, l), c, live, bytes, del);
      inserted', p', cur' := true, 7 * k + i - 1, c[7 * k + i - 1 := Entry(tag, 0, l)];
    }
  }

  /**
   * Enter the item at l, which its segment already counts, under its key. The first slot that
   * is free or holds the key takes it. An older entry goes if it is the one replaced, or
   * follows the taken slot within its bucket; one in a later bucket is left behind.
   */
  method Put(heap: Heap, raw: seq<Bucket>, ghost c: Chain, key: Key, tag: nat, l: Loc) returns (raw': seq<Bucket>)
    requires Scans(raw, c) && Backed(heap.cells, c) && |heap.nLive| == |heap.liveBytes| == |heap.cells|
    requires InMem(heap.cells, l)
    requires forall i :: 0 <= i < |c| && c[i].Entry? ==> c[i].loc != l
    modifies heap`nLive, heap`liveBytes, heap`deleted
    ensures Scans(raw', Inserted(heap.cells, key, tag, c, l))
    ensures Account(heap, c, [Entry(tag, 0, l)], old(heap.nLive), old(heap.liveBytes), old(heap.deleted),
                    Inserted(heap.cells, key, tag, c, l))
  {
    ScanSize(raw, c);
    hide Scans, Account, Inserted, PutAt, BucketOf, BucketEnd;
    ghost var live, bytes, del := heap.nLive, heap.liveBytes, heap.deleted;
    PutBegins(heap, c, key, tag, l);
    var n := |raw|;
    raw' := raw;
    var inserted := false;
    var k: nat, i: nat := 0, 1;
    ghost var p: nat, cur := 0, c;
    while k < n
      invariant AtSlot(k, i, n) && |raw'| == n && Scans(raw', cur)
      invariant PutAt(heap, c, key, tag, l, Position(k, i, n), inserted, p, live, bytes, del, cur)
      invariant inserted ==> k < n && BucketOf(p, n) == k
      decreases 7 * n - Position(k, i, n)
    {
      SlotBucket(k, i, n);
      ScanAt(raw', cur, k, i);
      if Hit(heap.cells, key, tag, raw'[k][i]) {
        raw' := PutMeets(heap, raw', k, i, key, tag, l, inserted, c, p, live, bytes, del, cur);
        return;
      }
      raw', inserted, p, cur := PutPasses(heap, raw', k, i, key, tag, l, inserted, c, p, live, bytes, del, cur);
      var r := Next(k, i, n);
      if inserted && r.0 != k {
        PutStops(heap, c, key, tag, l, n, Position(k, i, n) + 1, p, live, bytes, del, cur);
        return;
      }
      k, i := r.0, r.1;
    }
    PutGrows(heap, c, key, tag, l, p, live, bytes, del, cur);
    ScanGrownOf(raw', c, Entry(tag, 0, l));
    raw' := Grown(raw', Entry(tag, 0, l));
  }

  lemma PutBegins(heap: Heap, c: Chain, key: Key, tag: nat, l: Loc)
    requires Backed(heap.cells, c) && |heap.nLive| == |heap.liveBytes| == |heap.cells| && InMem(heap.cells, l)
    ensures PutAt(heap, c, key, tag, l, 0, false, 0, heap.nLive, heap.liveBytes, heap.deleted, c)
  {
    hide Account;
    AccountStart(heap, c);
  }

  /** A put stops at the end of the bucket whose free slot it has filled. */
  lemma PutStops(heap: Heap, c: Chain, key: Key, tag: nat, l: Loc, n: nat, j: nat, p: nat,
                 live: seq<int>, bytes: seq<int>, del: set<Loc>, cur: Chain)
    requires |c| == 7 * n && 0 < n && PutAt(heap, c, key, tag, l, j, true, p, live, bytes, del, cur)
    requires j == BucketEnd(BucketOf(p, n), n)
    ensures Backed(heap.cells, c) && cur == Inserted(heap.cells, key, tag, c, l)
    ensures Account(heap, c, [Entry(tag, 0, l)], live, bytes, del, cur)
  {
    hide Account;
    InsertedIs(heap.cells, key, tag, c, l, p, j);
  }

  /** A put that has found no slot for the entry appends a bucket. */
  lemma PutGrows(heap: Heap, c: Chain, key: Key, tag: nat, l: Loc, p: nat,
                 live: seq<int>, bytes: seq<int>, del: set<Loc>, cur: Chain)
    requires |c| % 7 == 0 < |c| && PutAt(heap, c, key, tag, l, |c|, false, p, live, bytes, del, cur)
    ensures Backed(heap.cells, c) && cur == c
    ensures Inserted(heap.cells, key, tag, c, l) == c + [Entry(tag, 0, l), Empty, Empty, Empty, Empty, Empty, Empty]
    ensures Account(heap, c, [Entry(tag, 0, l)], live, bytes, del, Inserted(heap.cells, key, tag, c, l))
  {
    hide Account;
    InsertedIs(heap.cells, key, tag, c, l, |c|, |c|);
    GrowAccount(heap, c, Entry(tag, 0, l), live, bytes, del);
  }

  lemma ScanGrownOf(raw: seq<Bucket>, c: Chain, x: Slot)
    requires Scans(raw, c)
    ensures RawOk(raw) && Scans(Grown(raw, x), c + [x, Empty, Empty, Empty, Empty, Empty, Empty])
  {
    ScanGrown(raw, c, x);
  }

  /**
   * Where a key's item is, if its segment is open. The first entry of the key decides; a hit
   * updates the entry's frequency to one the caller chooses.
   */
  method Get(heap: Heap, raw: seq<Bucket>, ghost c: Chain, key: Key, tag: nat, freq: nat)
    returns (raw': seq<Bucket>, r: Option<Loc>, ghost c': Chain)
    requires Scans(raw, c) && Backed(heap.cells, c) && heap.Shaped()
    ensures Scans(raw', c') && SameButFreq(c, c')
    ensures var f := Find(heap.cells, key, tag, c);
            r == if f.Some? && heap.SegIsAccessible(f.value.seg) then f else None
    ensures var i := FirstHitFrom(heap.cells, key, tag, c, 0);
            c' == if r.Some? then c[i := c[i].(freq := freq)] else c
  {
    hide Scans;
    ScanSize(raw, c);
    var n := |raw|;
    raw', r, c' := raw, None, c;
    var k: nat, i: nat := 0, 1;
    ghost var j: nat := 0;
    while k < n
      invariant AtSlot(k, i, n) && j == Position(k, i, n)
      invariant forall m :: 0 <= m < j ==> !Hit(heap.cells, key, tag, c[m])
      decreases 7 * n - j
    {
      ScanAt(raw, c, k, i);
      var x := raw[k][i];
      if Hit(heap.cells, key, tag, x) {
        FindAt(heap.cells, key, tag, c, j);
        if heap.SegIsAccessible(x.loc.seg) {
          ScanStore(raw, c, k, i, x.(freq := freq));
          raw' := raw[k := raw[k][i := x.(freq := freq)]];
          r, c' := Some(x.loc), c[j := x.(freq := freq)];
        }
        return;
      }
      var nx := Next(k, i, n);
      k, i := nx.0, nx.1;
      j := j + 1;
    }
  }
}
