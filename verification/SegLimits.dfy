/**
 * Two runs, from the constructor on, in which a reservation goes wrong: one in which merges have
 * used up the reserve, so that the next merge has no segment to copy to, and one in the second of
 * a flush, in which the segment that is linked is not open.
 */
module SegLimits {
  import opened Basics
  import opened SegItems
  import opened SegIndex
  import opened SegStore
  import opened SegHeap
  import opened SegLists
  import opened SegScan
  import opened TtlBuckets
  import opened SegCache
  import SegRun

  /** Five segments, one of them in reserve, each as large as one item; a merge stops when one is full. */
  ghost predicate Small(c: Cache) {
    c.heap.segSize == 16 && c.heap.n == 5 && c.heap.nReserved == 1 && c.stopBytes == 16 && c.nMaxMerge == 4
  }

  /** A ttl, and the bucket it leads to. */
  const TTL: int := 100
  const B: nat := 12

  function Nth(i: Byte): (it: Item)
    ensures ItemOk(it) && ItemSize(it) == 16 && it.key == [i]
  {
    Item([i], [], [])
  }

  predicate Never(mature: nat, s: nat) { false }

  predicate Always(l: Loc) { true }

  lemma TheBucket()
    ensures Int32(TTL) && Stable(TTL) && FindIdx(TTL) == B && BucketTtl(B) == 97 && Used(B)
  {
  }

  method Setup() returns (c: Cache)
    ensures fresh(c) && fresh(c.heap) && Small(c) && Stage(c, 0) && c.heap.Shaped()
  {
    var heap := new Heap(16, 5, 1, 0);
    c := new Cache(heap, Hashing(_ => 0, _ => 0), 16, 4, 1);
    FreshStage(c);
  }

  lemma FreshStage(c: Cache)
    requires c.Valid() && Small(c) && c.pending == [] && c.heap.now == 0 && c.heap.flushAt == -1
    requires c.heap.matureTime == 0
    requires c.heap.links.nFree == 5 && forall s :: 0 <= s < 5 ==> c.heap.lists.owner[s] == FREE
    ensures Stage(c, 0) && c.heap.Shaped()
  {
    hide Cache.IndexOk, SegTiled, Heap.Sorted, Heap.TtlOk, Heap.SegsOk, Linked;
    forall b | 0 <= b < N_BUCKET ensures c.heap.lists.chains[b] == [] {
      ChainLinked(c.heap.links, c.heap.lists, b);
    }
  }

  ghost predicate NoPending(pending: Chain) {
    forall i :: 0 <= i < |pending| ==> !pending[i].Entry?
  }

  /** Nobody is writing, no time has passed, and only bucket B has segments. */
  ghost predicate Calm(c: Cache)
    reads c, c.heap
  {
    && Small(c) && c.Valid() && c.heap.Shaped() && NoPending(c.pending)
    && c.heap.now == 0 && c.heap.flushAt == -1 && c.heap.matureTime == 0
    && forall b :: 0 <= b < N_BUCKET && b != B ==> c.heap.lists.chains[b] == []
  }

  /** m items were set, each on a segment of its own, and the first is found on the first. */
  ghost predicate Stage(c: Cache, m: nat)
    reads c, c.heap
  {
    && Calm(c) && |c.heap.lists.chains[B]| == m && c.heap.links.nFree == 5 - m
    && (m > 0 ==>
          && c.heap.lists.chains[B][0] >= 0 && c.W().Sound()
          && c.W().Look([0]) == Some(Loc(c.heap.lists.chains[B][0], 0)))
  }

  lemma NoWriters(w: World, s: nat)
    requires w.Sound() && NoPending(w.pending) && s < |w.mem|
    ensures w.wref[s] == 0
  {
    LoadNone(w.mem, w.pending, s, true);
  }

  /** Everything but the last segment of a calm cache's list may be evicted. */
  lemma CalmMovable(c: Cache, i: nat)
    requires Calm(c) && i + 1 < |c.heap.lists.chains[B]|
    ensures c.heap.Site().Fits(5)
    ensures var s := c.heap.lists.chains[B][i]; 0 <= s < 5 && c.heap.Site().Evictables(0)[s]
  {
    hide Cache.IndexOk, SegTiled, ListsOk, SortedAlong, InRange1, NoPending;
    TheBucket();
    c.ValidFits();
    var q := c.heap.lists.chains[B];
    ChainLinked(c.heap.links, c.heap.lists, B);
    NextIs(c.heap.links.prev, c.heap.links.next, q, i);
    NoWriters(c.W(), q[i]);
  }

  /** The last one may not. */
  lemma CalmLast(c: Cache)
    requires Calm(c) && c.heap.lists.chains[B] != []
    ensures c.heap.Site().Fits(5)
    ensures var q := c.heap.lists.chains[B];
            0 <= q[|q| - 1] < 5 && !c.heap.Site().Evictables(0)[q[|q| - 1]]
  {
    hide Cache.IndexOk, SegTiled, ListsOk, SortedAlong, InRange1, NoPending, Heap.Sorted, Heap.TtlOk, Heap.SegsOk;
    c.ValidFits();
    var q := c.heap.lists.chains[B];
    ChainLinked(c.heap.links, c.heap.lists, B);
    NextIs(c.heap.links.prev, c.heap.links.next, q, |q| - 1);
  }

  /** With four segments there are three in a row. */
  lemma CalmThree(c: Cache)
    requires Calm(c) && |c.heap.lists.chains[B]| >= 4
    ensures Tidy(c.heap.Site()) && HasThree(c.heap.Site(), B, 0)
  {
    hide Cache.IndexOk, SegTiled, SortedAlong, InRange1, NoPending, Heap.Sorted, Heap.TtlOk, Linked, Site.Evictables;
    CalmMovable(c, 0);
    CalmMovable(c, 1);
    CalmMovable(c, 2);
    assert ThreeAt(c.heap.lists.chains[B], c.heap.Site().Evictables(0), 0);
  }

  /** A segment that is as large as an item has no room for another. */
  lemma CalmFull(c: Cache)
    requires Calm(c)
    ensures !c.Roomy(B, 16)
  {
    hide Cache.IndexOk, ListsOk, SortedAlong, InRange1, NoPending, Heap.Sorted, Heap.TtlOk;
    c.LastIs(B);
    var s := c.heap.links.last[B];
    if s != -1 {
      LimitIs(c.heap.cells[s], 16, c.heap.writeOffset[s], c.heap.ends[s]);
    }
  }

  // ---------------------------------------------------------------------------
  // A merge uses up the reserve
  // ---------------------------------------------------------------------------

  /** Reserve room for item i and write it. */
  method ReserveItem(c: Cache, i: Byte) returns (r: Reserved, ghost how: Origin)
    requires Calm(c)
    modifies c, c.heap
    ensures old(c.heap.Site()).Fits(5) && |old(c.nextToMerge)| == N_BUCKET && old(c.W()).Sound()
    ensures Ending(true, false, old(c.Source(B, Never)), true, r)
    ensures r.Ok? ==> c.Valid() && c.heap.now == 0 && c.heap.flushAt == -1 && c.heap.matureTime == 0
    ensures r.Ok? ==> Suits(how, old(c.Source(B, Never)))
    ensures r.Ok? ==> r.loc.off == 0 && c.LinkedBy(old(c.W()), old(c.heap.Site()), Always, how, B, r.loc.seg)
    ensures r.Ok? ==> c.pending == old(c.pending) + [Entry(c.hs.g([i]), 0, r.loc)]
    ensures r.Ok? ==> InMem(c.heap.cells, r.loc) && ItemAt(c.heap.cells, r.loc) == Nth(i)
    ensures r.Ok? ==> c.W().Sound() && (Lost(how) == {} ==> forall k :: c.W().Look(k) == old(c.W()).Look(k))
  {
    hide Cache.Valid, World.Sound, World.Look, NoPending, LosesIn, ItemSize, ItemOk, Cache.Source, Cache.LinkedBy,
      Cache.Roomy, Waiting, MayLose, Cache.IndexOk, Ending, Suits, Cache.NotOpen;
    TheBucket();
    c.ValidFits();
    CalmFull(c);
    ghost var w := c.W();
    forall s | 0 <= s < c.heap.n ensures c.heap.wref[s] == 0 {
      NoWriters(w, s);
    }
    c.EndsAs(B, 16, B, Never);
    r, how := c.ItemReserve(Nth(i), TTL, B, Never, Always);
    if r.Ok? {
      c.ValidFits();
      LosesNone(w, c.W(), Lost(how));
    }
  }

  /** Reserve room for item i, write and insert it. */
  method SetItem(c: Cache, i: Byte) returns (r: Reserved, ghost how: Origin)
    requires Calm(c)
    modifies c, c.heap
    ensures old(c.heap.Site()).Fits(5) && |old(c.nextToMerge)| == N_BUCKET && old(c.W()).Sound()
    ensures Ending(true, false, old(c.Source(B, Never)), true, r)
    ensures r.Ok? ==> c.Valid() && c.heap.Shaped() && NoPending(c.pending)
    ensures r.Ok? ==> c.heap.now == 0 && c.heap.flushAt == -1 && c.heap.matureTime == 0
    ensures r.Ok? ==> Suits(how, old(c.Source(B, Never)))
    ensures r.Ok? ==> r.loc.off == 0 && c.LinkedBy(old(c.W()), old(c.heap.Site()), Always, how, B, r.loc.seg)
    ensures r.Ok? ==> c.W().Sound() && c.W().Look([i]) == Some(r.loc)
    ensures r.Ok? && Lost(how) == {} ==> forall k :: k != [i] ==> c.W().Look(k) == old(c.W()).Look(k)
  {
    hide Cache.Valid, World.Sound, World.Look, NoPending, Cache.Source, Cache.LinkedBy, Cache.IndexOk, Ending, Suits;
    ghost var p := c.pending;
    r, how := ReserveItem(c, i);
    if r.Ok? {
      PendingDone(p, Entry(c.hs.g([i]), 0, r.loc));
      SegRun.InsertQuietly(c, r.loc, |p|);
      c.ValidFits();
    }
  }

  lemma PendingDone(p: Chain, x: Slot)
    requires NoPending(p)
    ensures NoPending((p + [x])[|p| := Empty])
  {
  }

  lemma LosesNone(w: World, w': World, gone: set<nat>)
    requires w.Sound() && w'.Sound() && LosesIn(w, w', gone)
    ensures gone == {} ==> forall k :: w'.Look(k) == w.Look(k)
  {
    hide World.Sound, World.Look, Waiting;
  }

  /** As long as a segment is free beside the reserve, a set takes one. */
  method SetNext(c: Cache, m: Byte)
    requires Stage(c, m) && m < 4
    modifies c, c.heap
    ensures Stage(c, m + 1)
  {
    hide Cache.Valid, World.Sound, World.Look, NoPending, Tries;
    var r;
    ghost var how;
    ghost var lists := c.heap.lists.chains;
    c.ValidFits();
    r, how := SetItem(c, m);
    assert c.heap.lists.chains == lists[B := lists[B] + [r.loc.seg]];
  }

  /** What the searches of a calm cache with four segments come to. */
  lemma CalmSource(c: Cache)
    requires Calm(c) && |c.heap.lists.chains[B]| >= 4 && c.heap.links.nFree <= 1
    ensures c.heap.Site().Fits(5) && |c.nextToMerge| == N_BUCKET
    ensures if c.heap.links.nFree == 0 then c.Source(B, Never).Drained? else c.Source(B, Never).FromMerge?
  {
    hide Cache.Valid, NoPending, Tries, HasThree, ListsOk, Scan;
    c.ValidFits();
    CalmThree(c);
    assert Halved(0, RETRIES) == 0;
    assert SomeThree(c.heap.Site(), 0);
    TriesIff(c.heap.Site(), c.nextToMerge, B, 0, Never, RETRIES);
  }

  /** A segment filled by one current item fills the merged one as much. */
  lemma FullLevel(w: World, qs: seq<int>, k: Key)
    requires w.Sound() && TiledAll(w, qs) && |qs| > 0 && qs[0] >= 0
    requires w.Look(k) == Some(Loc(qs[0], 0)) && w.ends[qs[0]] <= 16
    ensures Level(w, 16, Always, qs, 1) == 16
  {
    hide World.Sound, World.Look;
    var s := qs[0];
    assert TiledSeg(w, s);
    LookStart(w, k);
    assert w.ends[s] == 16;
    assert Gain(w, 16, Always, Loc(s, 0), 0) == 16;
    assert FillTo(w, 16, Always, s, 16, 16, 16) == 16;
    assert Level(w, 16, Always, qs, 0) == 0;
  }

  /** A key leads to the beginning of an item. */
  lemma LookStart(w: World, k: Key)
    requires w.Sound() && w.Look(k).Some?
    ensures var l := w.Look(k).value;
            l.seg < |w.mem| == |w.ends| && l.off < w.ends[l.seg] && HasItem(w.mem[l.seg], l.off)
  {
    var l := w.Look(k).value;
    LookNamed(w, k);
    var b, i :| 0 <= b < |w.t| && 0 <= i < |w.t[b]| && w.t[b][i].Entry? && w.t[b][i].loc == l;
    assert Good(w.mem, w.ends, w.hs, |w.t|, b, w.t[b][i]);
    StartHasItem(w.mem[l.seg], 0, w.ends[l.seg], l.off);
  }

  /** A merge in the list of four merges from its beginning, where the first key's item is. */
  lemma MergeTakes(c: Cache, w0: World, st: Site, how: Origin, nFree: int)
    requires Small(c) && c.MergeIs(w0, st, 0, Always, how, nFree) && |st.wref| == 5 && st.links.nFree == 1
    requires |st.lists.chains[B]| == 4 && forall b :: 0 <= b < N_BUCKET && b != B ==> st.lists.chains[b] == []
    requires var q := st.lists.chains[B];
             && 0 <= q[0] < 5 && 0 <= q[3] < 5 && !st.Evictables(0)[q[3]]
             && q[0] < |w0.ends| && w0.ends[q[0]] <= 16 && w0.Look([0]) == Some(Loc(q[0], 0))
    ensures nFree == 0 && how.b == B && how.p == 0 && how.m == 1 && how.into != -1
  {
    hide World.Sound, World.Look, Level, Needed, RunLength, Site.Evictables, Merged, TiledAll;
    var q := st.lists.chains[how.b];
    var qs := q[how.p..how.p + RunLength(q, st.Evictables(0), how.p, c.nMaxMerge)];
    c.FreeFalls(w0, st, 0, Always, how, nFree);
    FullLevel(w0, qs, [0]);
    NoLevel(w0, qs);
  }

  lemma NoLevel(w: World, qs: seq<int>)
    requires w.Sound() && TiledAll(w, qs)
    ensures Level(w, 16, Always, qs, 0) == 0
  {
  }

  /** The fifth set merges, and what it copies fills the merged segment at once: none is left in the pool. */
  method SetFifth(c: Cache)
    requires Stage(c, 4)
    modifies c, c.heap
    ensures Calm(c) && |c.heap.lists.chains[B]| == 5 && c.heap.links.nFree == 0
  {
    hide Cache.Valid, World.Sound, World.Look, NoPending, Tries, Cache.Source, Cache.MergeIs, Site.Evictables;
    ghost var w0, st, q := c.W(), c.heap.Site(), c.heap.lists.chains[B];
    c.ValidFits();
    CalmSource(c);
    CalmLast(c);
    CalmMovable(c, 0);
    FitsSegment(c, q[0]);
    var r;
    ghost var how;
    r, how := SetItem(c, 4);
    MergeTakes(c, w0, st, how, c.heap.links.nFree);
    assert AfterMerge(st.lists.chains, how)[B] == [how.into] + q[1..];
  }

  lemma FitsSegment(c: Cache, s: nat)
    requires c.Valid() && c.heap.Shaped() && s < c.heap.n
    ensures c.heap.ends[s] <= c.heap.segSize
  {
    hide Cache.IndexOk, ListsOk, Heap.Sorted, Heap.TtlOk;
  }

  function Setting(i: Byte): SegRun.Op { SegRun.Reserve(Nth(i), TTL, B, Never, Always) }

  /** With no segment left in the pool, the next merge has none to copy to. */
  method SetSixth(c: Cache) returns (e: SegRun.Event)
    requires Calm(c) && |c.heap.lists.chains[B]| == 5 && c.heap.links.nFree == 0
    modifies c, c.heap
    ensures var m := old(SegRun.Now(c));
            && m.Ok() && Int32(TTL) && m.Short(Setting(5)) && m.Source(Setting(5)).Drained?
            && SegRun.DidReserve(m, Setting(5), e, SegRun.Now(c))
    ensures e.Stalled?
  {
    hide Cache.Valid, World.Sound, World.Look, NoPending, Supplied, ItemSize, SegRun.Costs, SegRun.Written;
    TheBucket();
    c.ValidFits();
    CalmSource(c);
    CalmFull(c);
    SegRun.SameRoom(c, B, 16);
    forall s | 0 <= s < c.heap.n ensures c.heap.wref[s] == 0 {
      NoWriters(c.W(), s);
    }
    ghost var gone;
    e, gone := SegRun.ReserveQuietly(c, Setting(5));
  }

  /** Five sets from the constructor on use up the reserve. */
  method Drain() returns (c: Cache)
    ensures fresh(c) && fresh(c.heap) && Calm(c) && |c.heap.lists.chains[B]| == 5 && c.heap.links.nFree == 0
  {
    hide Stage, Calm;
    c := Setup();
    SetNext(c, 0);
    SetNext(c, 1);
    SetNext(c, 2);
    SetNext(c, 3);
    SetFifth(c);
  }

  /** A sixth set has no segment to merge into. */
  method DrainAndSet() returns (c: Cache, e: SegRun.Event, ghost before: SegRun.Moment)
    ensures fresh(c) && fresh(c.heap) && before.Ok() && before.st.links.nFree == 0
    ensures Int32(TTL) && before.Short(Setting(5)) && before.Source(Setting(5)).Drained?
    ensures SegRun.DidReserve(before, Setting(5), e, SegRun.Now(c)) && e.Stalled?
  {
    hide Calm, World.Sound, SegRun.DidReserve, Supplied, ItemSize;
    c := Drain();
    before := SegRun.Now(c);
    e := SetSixth(c);
  }

  // ---------------------------------------------------------------------------
  // The second of a flush
  // ---------------------------------------------------------------------------

  /** A set in the second of a flush links a segment that is not open, although four more are free. */
  method FlushThenSet() returns (c: Cache, r: Reserved)
    ensures fresh(c) && fresh(c.heap) && Small(c) && c.heap.Shaped() && c.IndexOk() && c.heap.now <= c.heap.flushAt
    ensures r.Unopened? && c.NotOpen(B, 16, r.seg)
    ensures c.heap.lists.chains[B] == [r.seg] && c.heap.links.nFree == 4
  {
    hide Cache.Valid, World.Sound, World.Look, NoPending, Tries, LosesIn, Waiting, MayLose, Cache.NotOpen,
      Cache.IndexOk;
    c := Setup();
    TheBucket();
    CalmFull(c);
    FlushNow(c);
    c.ValidFits();
    forall s | 0 <= s < c.heap.n ensures c.heap.wref[s] == 0 {
      NoWriters(c.W(), s);
    }
    ghost var how;
    r, how := c.ItemReserve(Nth(0), TTL, B, Never, Always);
  }

  /** The reservation goes on until only the reserve is left: four segments are linked, and none has an item. */
  method FlushAndLoop() returns (c: Cache, open: bool)
    ensures fresh(c) && c.heap.Spare() && !open && c.heap.links.nFree == c.heap.nReserved == 1
    ensures |c.heap.lists.chains[B]| == 4
    ensures forall i :: 0 <= i < 4 ==> c.Idle(B, 16, c.heap.lists.chains[B][i])
  {
    hide ListsOk, Cache.IndexOk, SameLooks;
    var r;
    c, r := FlushThenSet();
    c.SpareFree();
    ghost var taken;
    open, taken := c.LoopOn(B, 16);
  }

  method FlushNow(c: Cache)
    requires Calm(c) && !c.Roomy(B, 16)
    modifies c.heap`flushAt
    ensures c.Valid() && c.heap.Shaped() && c.heap.flushAt == c.heap.now && !c.Roomy(B, 16)
  {
    hide World.Sound, MarksOk, Cache.TableOk, ListsOk, SegTiled, SortedAlong, NoPending, InRange1;
    c.heap.flushAt := c.heap.now;
  }
}
