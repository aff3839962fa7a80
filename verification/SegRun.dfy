/**
 * Whole runs of the segment cache: whatever items are reserved, inserted, read, deleted, expired,
 * flushed or merged away, in whatever order, a read that finds something finds what was last
 * inserted, and one that finds nothing does so for a reason that the run shows.
 */
module SegRun {
  import opened Basics
  import opened SegItems
  import opened SegIndex
  import opened SegStore
  import opened SegHeap
  import opened SegLists
  import opened SegScan
  import opened TtlBuckets
  import opened SegCache

  /** Insert names the reservation whose item is inserted, by the number of its event. */
  datatype Op =
    | Reserve(it: Item, ttl: int, b0: nat, tooOld: (nat, nat) -> bool, keep: Loc -> bool)
    | Insert(r: nat)
    | Get(key: Key, freq: nat)
    | Delete(key: Key)
    | Expire
    | Flush
    | Tick(seconds: nat)

  /**
   * A reservation tells when it was made, how old the item's segment is, where the item is, and
   * whether no segment was free beside the reserve. A run ends with a merge that has no segment to
   * copy to, or in the loop that links segments that are not open.
   */
  datatype Event =
    | Reserved(it: Item, ttl: int, at: int, made: int, loc: Loc, tight: bool)
    | Refused
    | Stored(it: Item, r: nat)
    | Read(key: Key, found: Option<Item>, at: int)
    | Removed(key: Key, was: bool)
    | Flushed(at: int)
    | Passed
    | Stalled
    | Looping

  predicate Over(e: Event) { e.Stalled? || e.Looping? }

  // ---------------------------------------------------------------------------
  // What a run may show
  // ---------------------------------------------------------------------------

  /** The event that stored what key k stands for, if it was not removed since. */
  function Latest(tr: seq<Event>, k: Key): (j: Option<nat>)
    ensures j.Some? ==> j.value < |tr| && tr[j.value].Stored? && tr[j.value].it.key == k
  {
    if tr == [] then None
    else
      var e := tr[|tr| - 1];
      if e.Stored? && e.it.key == k then Some(|tr| - 1)
      else if e.Removed? && e.key == k then None
      else Latest(tr[..|tr| - 1], k)
  }

  /** When the cache was last flushed; f0 if never. */
  function LastFlush(tr: seq<Event>, f0: int): int {
    if tr == [] then f0
    else
      var e := tr[|tr| - 1];
      if e.Flushed? then e.at else LastFlush(tr[..|tr| - 1], f0)
  }

  /** No reservation after event j has found the pool at its reserve, so none can have cost a key. */
  ghost predicate Ample(tr: seq<Event>, j: nat) {
    forall m :: j < m < |tr| && tr[m].Reserved? ==> !tr[m].tight
  }

  /** The segment of reservation e is open at a time. */
  predicate OpenAt(e: Event, now: int, flushAt: int) {
    e.Reserved? && Int32(e.ttl) && e.made + BucketTtl(FindIdx(e.ttl)) > now && e.made > flushAt
  }

  /**
   * A read after the events tr: if it found something, then the item last inserted under the key,
   * which was not removed since, nor flushed since it was reserved, and whose ttl has not passed by
   * more than a second. If no segment had to be freed since, it found that item just when the
   * segment it was written to is open.
   */
  ghost predicate Honest(tr: seq<Event>, e: Event, f0: int) {
    e.Read? ==>
      match Latest(tr, e.key)
      case None => e.found == None
      case Some(j) =>
        var r := tr[j].r;
        && r < j && tr[r].Reserved? && tr[r].it == tr[j].it
        && (e.found.Some? ==>
              && e.found.value == tr[j].it
              && (forall m :: r < m < |tr| ==> !tr[m].Flushed?)
              && (tr[r].ttl > 0 ==> e.at <= tr[r].at + tr[r].ttl))
        && (Ample(tr, j) ==> (e.found.Some? <==> OpenAt(tr[r], e.at, LastFlush(tr, f0))))
  }

  ghost predicate AllHonest(tr: seq<Event>, f0: int) {
    forall i :: 0 <= i < |tr| ==> Honest(tr[..i], tr[i], f0)
  }

  lemma HonestMore(tr: seq<Event>, e: Event, f0: int)
    requires AllHonest(tr, f0) && Honest(tr, e, f0)
    ensures AllHonest(tr + [e], f0)
  {
    var tr' := tr + [e];
    forall i | 0 <= i < |tr'| ensures Honest(tr'[..i], tr'[i], f0) {
      assert tr'[..i] == if i < |tr| then tr[..i] else tr;
    }
  }

  // ---------------------------------------------------------------------------
  // How the store follows the run
  // ---------------------------------------------------------------------------

  /** The item at l is the one of reservation e, on a segment with its ttl that is no younger. */
  ghost predicate Matches(e: Event, w: World, l: Loc) {
    && InMem(w.mem, l) && l.seg < |w.at| == |w.ttl|
    && e.Reserved? && Int32(e.ttl) && e.it == ItemAt(w.mem, l)
    && w.at[l.seg] <= e.made && w.ttl[l.seg] == BucketTtl(FindIdx(e.ttl))
  }

  /** Key k leads to what was last inserted under it, if anywhere. */
  ghost predicate TrackedKey(w: World, tr: seq<Event>, k: Key)
    requires w.Sound()
  {
    w.Look(k).Some? ==>
      && Latest(tr, k).Some? && tr[Latest(tr, k).value].r < Latest(tr, k).value
      && Matches(tr[tr[Latest(tr, k).value].r], w, w.Look(k).value)
  }

  ghost predicate Tracked(w: World, tr: seq<Event>)
    requires w.Sound()
  {
    forall k :: TrackedKey(w, tr, k)
  }

  /** Unless a key may have been lost to a merge, it is found, or its segment is closed for good. */
  ghost predicate KeptKey(w: World, tr: seq<Event>, k: Key, now: int, flushAt: int)
    requires w.Sound()
  {
    Latest(tr, k).Some? ==>
      var j := Latest(tr, k).value;
      && tr[j].r < j && tr[tr[j].r].Reserved? && Int32(tr[tr[j].r].ttl) && tr[tr[j].r].it == tr[j].it
      && (Ample(tr, j) ==>
            || (w.Look(k).Some? && w.at[w.Look(k).value.seg] == tr[tr[j].r].made)
            || !OpenAt(tr[tr[j].r], now, flushAt))
  }

  ghost predicate Kept(w: World, tr: seq<Event>, now: int, flushAt: int)
    requires w.Sound()
  {
    forall k :: KeptKey(w, tr, k, now, flushAt)
  }

  /** Nothing is from the future, and what was reserved before a flush is not younger than the last one. */
  ghost predicate TimesOk(tr: seq<Event>, f0: int, now: int, flushAt: int) {
    && flushAt <= now && LastFlush(tr, f0) == flushAt
    && (forall r :: 0 <= r < |tr| && tr[r].Reserved? ==> tr[r].made <= tr[r].at <= now)
    && (forall r, m :: 0 <= r < m < |tr| && tr[r].Reserved? && tr[m].Flushed? ==> tr[r].at <= flushAt)
  }

  /** The item of reservation r was inserted. */
  ghost predicate Inserted(tr: seq<Event>, r: nat) {
    exists j :: 0 <= j < |tr| && tr[j].Stored? && tr[j].r == r
  }

  /** Item i in waiting is that of event r, which was not inserted. */
  ghost predicate Awaits(w: World, tr: seq<Event>, x: Slot, r: nat) {
    x.Entry? ==>
      && r < |tr| && Matches(tr[r], w, x.loc) && tr[r].loc == x.loc && w.at[x.loc.seg] == tr[r].made && !Inserted(tr, r)
  }

  /** The items in waiting are those of the reservations that were not inserted; open tells which. */
  ghost predicate Queued(w: World, tr: seq<Event>, open: seq<nat>) {
    && |open| == |w.pending|
    && (forall j :: 0 <= j < |tr| && tr[j].Stored? ==> tr[j].r < j)
    && (forall i, k :: 0 <= i < k < |open| ==> open[i] != open[k])
    && (forall i :: 0 <= i < |open| ==> open[i] < |tr| && Awaits(w, tr, w.pending[i], open[i]))
    && (forall r: nat :: r < |tr| && tr[r].Reserved? && !Inserted(tr, r) ==> Waits(w, open, r))
  }

  ghost predicate Waits(w: World, open: seq<nat>, r: nat) {
    exists i :: 0 <= i < |open| == |w.pending| && open[i] == r && w.pending[i].Entry?
  }

  ghost predicate Follows(w: World, tr: seq<Event>, open: seq<nat>, f0: int, now: int, flushAt: int) {
    && w.Sound() && Tracked(w, tr) && Kept(w, tr, now, flushAt) && TimesOk(tr, f0, now, flushAt) && Queued(w, tr, open)
  }

  ghost predicate Following(c: Cache, tr: seq<Event>, open: seq<nat>, f0: int)
    reads c, c.heap
  {
    c.Valid() && Follows(c.W(), tr, open, f0, c.heap.now, c.heap.flushAt)
  }

  // ---------------------------------------------------------------------------
  // One more event
  // ---------------------------------------------------------------------------

  lemma LatestMore(tr: seq<Event>, e: Event, k: Key)
    ensures Latest(tr + [e], k)
         == if e.Stored? && e.it.key == k then Some(|tr|)
            else if e.Removed? && e.key == k then None
            else Latest(tr, k)
  {
    assert (tr + [e])[..|tr|] == tr;
  }

  lemma FlushMore(tr: seq<Event>, e: Event, f0: int)
    ensures LastFlush(tr + [e], f0) == if e.Flushed? then e.at else LastFlush(tr, f0)
  {
    assert (tr + [e])[..|tr|] == tr;
  }

  lemma AmpleMore(tr: seq<Event>, e: Event, j: nat)
    requires j < |tr|
    ensures Ample(tr + [e], j) <==> Ample(tr, j) && (e.Reserved? ==> !e.tight)
  {
    var tr' := tr + [e];
    if Ample(tr', j) {
      forall m | j < m < |tr| && tr[m].Reserved? ensures !tr[m].tight {
        assert tr'[m] == tr[m];
      }
      assert tr'[|tr|] == e;
    }
  }

  lemma InsertedMore(tr: seq<Event>, e: Event, r: nat)
    ensures Inserted(tr + [e], r) <==> Inserted(tr, r) || (e.Stored? && e.r == r)
  {
    var tr' := tr + [e];
    if Inserted(tr, r) {
      var j :| 0 <= j < |tr| && tr[j].Stored? && tr[j].r == r;
      assert tr'[j] == tr[j];
    }
    if e.Stored? && e.r == r {
      assert tr'[|tr|] == e;
    }
  }

  lemma TimesMore(tr: seq<Event>, e: Event, f0: int, now: int, flushAt: int, now': int, flushAt': int)
    requires TimesOk(tr, f0, now, flushAt) && now <= now' && flushAt' == (if e.Flushed? then e.at else flushAt)
    requires (e.Flushed? ==> e.at == now) && (e.Reserved? ==> e.made <= e.at <= now')
    ensures flushAt <= flushAt' && TimesOk(tr + [e], f0, now', flushAt')
  {
    FlushMore(tr, e, f0);
  }

  /** An event that is no reservation, store, removal or flush. */
  predicate Plain(e: Event) { e.Refused? || e.Read? || e.Passed? || Over(e) }

  /** No segment at l is open any more. */
  predicate Closed(w: World, l: Loc, now: int, flushAt: int) {
    l.seg < |w.at| == |w.ttl| && (w.at[l.seg] + w.ttl[l.seg] <= now || w.at[l.seg] <= flushAt)
  }

  /** Keys whose segment is open are found where they were. */
  ghost predicate LosesClosed(w: World, w': World, now: int, flushAt: int)
    requires w.Sound() && w'.Sound()
  {
    forall k :: w.Look(k).Some? ==>
      || (w'.Look(k) == w.Look(k) && w'.at[w.Look(k).value.seg] == w.at[w.Look(k).value.seg])
      || Closed(w, w.Look(k).value, now, flushAt)
  }

  lemma TrackedOnly(w: World, w': World, tr: seq<Event>, k: Key)
    requires w.Sound() && w'.Sound() && TrackedKey(w, tr, k)
    requires w'.Look(k).Some? ==> w.Look(k).Some? && NoNewer(w, w', w.Look(k).value, w'.Look(k).value)
    ensures TrackedKey(w', tr, k)
  {
  }

  /** A plain event, or one about other keys. */
  lemma TrackedMore(w: World, tr: seq<Event>, e: Event, k: Key)
    requires w.Sound() && TrackedKey(w, tr, k) && (e.Stored? ==> e.it.key != k)
    requires e.Removed? && e.key == k ==> w.Look(k) == None
    ensures TrackedKey(w, tr + [e], k)
  {
    LatestMore(tr, e, k);
  }

  lemma KeptMore(w: World, w': World, tr: seq<Event>, e: Event, k: Key, now: int, flushAt: int, now': int,
                 flushAt': int)
    requires w.Sound() && w'.Sound() && TrackedKey(w, tr, k) && KeptKey(w, tr, k, now, flushAt)
    requires now <= now' && flushAt <= flushAt' && (e.Stored? ==> e.it.key != k)
    requires (e.Reserved? && e.tight) || (w.Look(k).Some? ==>
               || (w'.Look(k) == w.Look(k) && w'.at[w.Look(k).value.seg] == w.at[w.Look(k).value.seg])
               || Closed(w, w.Look(k).value, now', flushAt'))
    ensures KeptKey(w', tr + [e], k, now', flushAt')
  {
    LatestMore(tr, e, k);
    if Latest(tr, k).Some? {
      AmpleMore(tr, e, Latest(tr, k).value);
    }
  }

  /** Items in waiting are not touched by what goes on meanwhile. */
  lemma AwaitsMore(w: World, w': World, tr: seq<Event>, e: Event, x: Slot, r: nat)
    requires Awaits(w, tr, x, r) && SameSlot(w, w', x, x) && (e.Stored? ==> e.r != r)
    ensures Awaits(w', tr + [e], x, r)
  {
    InsertedMore(tr, e, r);
  }

  lemma QueuedMore(w: World, w': World, tr: seq<Event>, e: Event, open: seq<nat>)
    requires w.Sound() && w'.Sound() && Queued(w, tr, open) && Waiting(w, w') && |w'.pending| == |w.pending|
    requires !e.Stored? && !e.Reserved?
    ensures Queued(w', tr + [e], open)
  {
    hide World.Sound, Awaits, SameSlot, Inserted;
    var tr' := tr + [e];
    forall i | 0 <= i < |open|
      ensures w'.pending[i] == w.pending[i] && open[i] < |tr'| && Awaits(w', tr', w'.pending[i], open[i])
    {
      SlotSame(w, w', w.pending[i], w'.pending[i]);
      AwaitsMore(w, w', tr, e, w.pending[i], open[i]);
    }
    forall r: nat | r < |tr'| && tr'[r].Reserved? && !Inserted(tr', r) ensures Waits(w', open, r) {
      InsertedMore(tr, e, r);
      assert Waits(w, open, r);
    }
  }

  lemma SlotSame(w: World, w': World, x: Slot, x': Slot)
    requires SameSlot(w, w', x, x')
    ensures x' == x
  {
  }

  /** Time passes, and keys may be lost whose segments are closed. */
  lemma FollowsPlain(w: World, w': World, tr: seq<Event>, e: Event, open: seq<nat>, f0: int, now: int,
                     now': int, flushAt: int)
    requires Follows(w, tr, open, f0, now, flushAt) && w'.Sound() && Plain(e) && now <= now'
    requires OnlyLoses(w, w') && LosesClosed(w, w', now', flushAt) && Waiting(w, w') && |w'.pending| == |w.pending|
    ensures Follows(w', tr + [e], open, f0, now', flushAt)
  {
    hide World.Sound, World.Look, TrackedKey, KeptKey, TimesOk, Queued, Waiting, NoNewer;
    TimesMore(tr, e, f0, now, flushAt, now', flushAt);
    QueuedMore(w, w', tr, e, open);
    forall k ensures TrackedKey(w', tr + [e], k) {
      TrackedOnly(w, w', tr, k);
      TrackedMore(w', tr, e, k);
    }
    forall k ensures KeptKey(w', tr + [e], k, now', flushAt) {
      KeptMore(w, w', tr, e, k, now, flushAt, now', flushAt);
    }
  }

  lemma FollowsRemoved(w: World, w': World, tr: seq<Event>, e: Event, open: seq<nat>, f0: int, now: int,
                       flushAt: int)
    requires Follows(w, tr, open, f0, now, flushAt) && w'.Sound() && e.Removed?
    requires forall k :: w'.Look(k) == if k == e.key then None else w.Look(k)
    requires w'.mem == w.mem && w'.at == w.at && w'.ttl == w.ttl && w'.pending == w.pending
    ensures Follows(w', tr + [e], open, f0, now, flushAt)
  {
    hide World.Sound, World.Look, TimesOk, Queued, Waiting, Ample, Inserted, OpenAt;
    TimesMore(tr, e, f0, now, flushAt, now, flushAt);
    WaitingSelf(w, w');
    QueuedMore(w, w', tr, e, open);
    forall k ensures TrackedKey(w', tr + [e], k) && KeptKey(w', tr + [e], k, now, flushAt) {
      LatestMore(tr, e, k);
      if k != e.key {
        assert TrackedKey(w, tr, k) && KeptKey(w, tr, k, now, flushAt);
        if Latest(tr, k).Some? {
          AmpleMore(tr, e, Latest(tr, k).value);
        }
      }
    }
  }

  lemma FollowsFlushed(w: World, tr: seq<Event>, open: seq<nat>, f0: int, now: int, flushAt: int)
    requires Follows(w, tr, open, f0, now, flushAt)
    ensures Follows(w, tr + [Flushed(now)], open, f0, now, now)
  {
    hide World.Sound, World.Look, TrackedKey, KeptKey, TimesOk, Queued, Waiting;
    var e := Flushed(now);
    TimesMore(tr, e, f0, now, flushAt, now, now);
    WaitingSelf(w, w);
    QueuedMore(w, w, tr, e, open);
    forall k ensures TrackedKey(w, tr + [e], k) {
      TrackedMore(w, tr, e, k);
    }
    forall k ensures KeptKey(w, tr + [e], k, now, now) {
      KeptMore(w, w, tr, e, k, now, flushAt, now, now);
    }
  }

  /** A reservation: keys may be lost if the pool was at its reserve, and one more item waits. */
  lemma FollowsReserved(w: World, w': World, tr: seq<Event>, e: Event, open: seq<nat>, gone: set<nat>,
                        f0: int, now: int, flushAt: int)
    requires Follows(w, tr, open, f0, now, flushAt) && w'.Sound() && LosesIn(w, w', gone) && e.Reserved?
    requires (gone != {} ==> e.tight) && e.made <= e.at <= now && |w'.pending| == |w.pending| + 1
    requires var x := w'.pending[|w.pending|];
             x.Entry? && x.loc == e.loc && Matches(e, w', x.loc) && w'.at[x.loc.seg] == e.made
    ensures Follows(w', tr + [e], open + [|tr|], f0, now, flushAt)
  {
    hide World.Sound, World.Look, TrackedKey, KeptKey, TimesOk, Queued, Waiting, NoNewer;
    TimesMore(tr, e, f0, now, flushAt, now, flushAt);
    QueuedReserved(w, w', tr, e, open);
    LosesOnly(w, w', gone);
    forall k ensures TrackedKey(w', tr + [e], k) {
      TrackedOnly(w, w', tr, k);
      TrackedMore(w', tr, e, k);
    }
    forall k ensures KeptKey(w', tr + [e], k, now, flushAt) {
      KeptMore(w, w', tr, e, k, now, flushAt, now, flushAt);
    }
  }

  lemma QueuedReserved(w: World, w': World, tr: seq<Event>, e: Event, open: seq<nat>)
    requires w.Sound() && w'.Sound() && Queued(w, tr, open) && Waiting(w, w') && e.Reserved?
    requires |w'.pending| == |w.pending| + 1
    requires var x := w'.pending[|w.pending|];
             x.Entry? && x.loc == e.loc && Matches(e, w', x.loc) && w'.at[x.loc.seg] == e.made
    ensures Queued(w', tr + [e], open + [|tr|])
  {
    assert !Inserted(tr, |tr|);
    hide World.Sound, Awaits, SameSlot, Inserted, Matches;
    var tr', open' := tr + [e], open + [|tr|];
    forall i | 0 <= i < |open'| ensures open'[i] < |tr'| && Awaits(w', tr', w'.pending[i], open'[i]) {
      if i < |open| {
        SlotSame(w, w', w.pending[i], w'.pending[i]);
        AwaitsMore(w, w', tr, e, w.pending[i], open[i]);
      } else {
        InsertedMore(tr, e, |tr|);
        AwaitsNew(w', tr', w'.pending[i], |tr|);
      }
    }
    forall r: nat | r < |tr'| && tr'[r].Reserved? && !Inserted(tr', r) ensures Waits(w', open', r) {
      InsertedMore(tr, e, r);
      if r < |tr| {
        assert Waits(w, open, r);
        var i :| 0 <= i < |open| == |w.pending| && open[i] == r && w.pending[i].Entry?;
        SlotSame(w, w', w.pending[i], w'.pending[i]);
        assert open'[i] == r && w'.pending[i].Entry?;
      } else {
        assert open'[|open|] == r && w'.pending[|open|].Entry?;
      }
    }
  }

  lemma AwaitsNew(w: World, tr: seq<Event>, x: Slot, r: nat)
    requires x.Entry? && r < |tr| && Matches(tr[r], w, x.loc) && tr[r].loc == x.loc && w.at[x.loc.seg] == tr[r].made
    requires !Inserted(tr, r)
    ensures Awaits(w, tr, x, r)
  {
  }

  /** An item in waiting is inserted: its key leads to it from now on. */
  lemma FollowsStored(w: World, w': World, tr: seq<Event>, e: Event, open: seq<nat>, i: nat, l: Loc,
                      f0: int, now: int, flushAt: int)
    requires Follows(w, tr, open, f0, now, flushAt) && w'.Sound() && e.Stored? && i < |open| && e.r == open[i]
    requires i < |w.pending| && w.pending[i].Entry? && w.pending[i].loc == l && tr[e.r].Reserved? && e.it == tr[e.r].it
    requires w'.mem == w.mem && w'.at == w.at && w'.ttl == w.ttl && w'.pending == w.pending[i := Empty]
    requires forall k :: w'.Look(k) == if k == e.it.key then Some(l) else w.Look(k)
    ensures Follows(w', tr + [e], open, f0, now, flushAt)
  {
    hide World.Sound, World.Look, TimesOk, Queued, Waiting, Inserted, OpenAt;
    TimesMore(tr, e, f0, now, flushAt, now, flushAt);
    QueuedStored(w, w', tr, e, open, i);
    forall k ensures TrackedKey(w', tr + [e], k) && KeptKey(w', tr + [e], k, now, flushAt) {
      LatestMore(tr, e, k);
      assert TrackedKey(w, tr, k) && KeptKey(w, tr, k, now, flushAt);
      if k != e.it.key && Latest(tr, k).Some? {
        AmpleMore(tr, e, Latest(tr, k).value);
      }
    }
  }

  lemma QueuedStored(w: World, w': World, tr: seq<Event>, e: Event, open: seq<nat>, i: nat)
    requires w.Sound() && w'.Sound() && Queued(w, tr, open) && e.Stored? && i < |open| && e.r == open[i]
    requires w.pending[i].Entry?
    requires w'.mem == w.mem && w'.at == w.at && w'.ttl == w.ttl && w'.pending == w.pending[i := Empty]
    ensures Queued(w', tr + [e], open)
    ensures e.r < |tr| && Matches(tr[e.r], w, w.pending[i].loc) && w.at[w.pending[i].loc.seg] == tr[e.r].made
  {
    assert Awaits(w, tr, w.pending[i], open[i]);
    hide World.Sound, Inserted, Matches;
    var tr' := tr + [e];
    forall k | 0 <= k < |open| ensures open[k] < |tr'| && Awaits(w', tr', w'.pending[k], open[k]) {
      assert Awaits(w, tr, w.pending[k], open[k]);
      InsertedMore(tr, e, open[k]);
      if k != i && w.pending[k].Entry? {
        MatchesSame(tr[open[k]], w, w', w.pending[k].loc);
      }
    }
    forall r: nat | r < |tr'| && tr'[r].Reserved? && !Inserted(tr', r) ensures Waits(w', open, r) {
      InsertedMore(tr, e, r);
      assert Waits(w, open, r);
      var k :| 0 <= k < |open| == |w.pending| && open[k] == r && w.pending[k].Entry?;
      assert open[k] == r && w'.pending[k].Entry?;
    }
  }

  lemma MatchesSame(e: Event, w: World, w': World, l: Loc)
    requires Matches(e, w, l) && w'.mem == w.mem && w'.at == w.at && w'.ttl == w.ttl
    ensures Matches(e, w', l)
  {
  }

  /** What a read finds is honest, if it finds an item just when its segment is open. */
  lemma ReadHonest(w: World, tr: seq<Event>, open: seq<nat>, e: Event, f0: int, now: int, flushAt: int)
    requires Follows(w, tr, open, f0, now, flushAt) && e.Read? && e.at == now
    requires e.found.Some? ==> w.Look(e.key).Some? && e.found.value == ItemAt(w.mem, w.Look(e.key).value)
    requires e.found.Some? <==> w.Look(e.key).Some? && !Closed(w, w.Look(e.key).value, now, flushAt)
    ensures Honest(tr, e, f0)
  {
    hide World.Sound, World.Look, Queued, Ample;
    assert TrackedKey(w, tr, e.key) && KeptKey(w, tr, e.key, now, flushAt);
    match Latest(tr, e.key)
    case None =>
    case Some(j) =>
      var r := tr[j].r;
      if e.found.Some? && tr[r].ttl > 0 {
        TtlBound(tr[r].ttl);
      }
  }

  /** A bucket's ttl is at most a second more than the ttls that lead to it. */
  lemma TtlBound(ttl: int)
    requires Int32(ttl) && ttl > 0
    ensures BucketTtl(FindIdx(ttl)) <= ttl + 1
  {
    if ttl < BOUNDARY4 {
      Precision(ttl);
    }
  }

  // ---------------------------------------------------------------------------
  // What the operations do
  // ---------------------------------------------------------------------------

  /** A cache at a moment, as far as the operations depend on it. */
  datatype Moment = Moment(w: World, st: Site, next: seq<int>, offsets: seq<int>, accessible: seq<bool>,
                           mature: nat, flushAt: int, segSize: nat, reserved: nat)
  {
    ghost predicate Ok() {
      && w.Sound() && st.Fits(|w.mem|) && |next| == N_BUCKET
      && |offsets| == |accessible| == |w.mem|
    }

    /** The last segment of bucket b is open and has room for sz bytes. */
    ghost predicate Roomy(b: nat, sz: nat)
      requires Ok() && b < N_BUCKET
    {
      var s := st.links.last[b];
      && 0 <= s < |w.mem| && offsets[s] + sz <= segSize
      && accessible[s] && st.ttl[s] + st.createAt[s] > st.now && st.createAt[s] > flushAt
    }

    /** The reservation needs a new segment. */
    ghost predicate Short(op: Op)
      requires Ok() && op.Reserve? && Int32(op.ttl)
    {
      ItemSize(op.it) <= segSize && !Roomy(FindIdx(op.ttl), ItemSize(op.it))
    }

    /** Where that one comes from. */
    ghost function Source(op: Op): Supply
      requires Ok() && op.Reserve?
    {
      Supplied(st, reserved, next, op.b0, mature, op.tooOld)
    }

    /** There is one to be had. */
    ghost predicate Obtainable(op: Op)
      requires Ok() && op.Reserve?
    {
      !Source(op).Nowhere? && !Source(op).Drained?
    }

    /** The reservation needs a new segment, and none is free beside the reserve. */
    ghost predicate Tight(op: Op)
      requires Ok() && op.Reserve? && Int32(op.ttl)
    {
      st.links.nFree <= reserved && !Roomy(FindIdx(op.ttl), ItemSize(op.it))
    }

    /** What a read of a key finds: the item it leads to, if that one's segment is open. */
    ghost function Answer(key: Key): Option<Item>
      requires Ok()
    {
      if w.Look(key).Some? && !Closed(w, w.Look(key).value, st.now, flushAt)
      then Some(ItemAt(w.mem, w.Look(key).value)) else None
    }
  }

  ghost function Now(c: Cache): Moment
    reads c, c.heap
  {
    Moment(c.W(), c.heap.Site(), c.nextToMerge, c.heap.writeOffset, c.heap.accessible,
           c.heap.matureTime, c.heap.flushAt, c.heap.segSize, c.heap.nReserved)
  }

  /** Items, places and ages are as they were. */
  ghost predicate Untouched(m: Moment, m': Moment) {
    && m.Ok() && m'.Ok() && m'.st.now == m.st.now && m'.flushAt == m.flushAt
    && m'.w.mem == m.w.mem && m'.w.at == m.w.at && m'.w.ttl == m.w.ttl
  }

  /**
   * A reservation costs keys only if it needs a new segment while none is free beside the reserve,
   * and only keys on segments that may be evicted, or on one that is too old.
   */
  ghost predicate Costs(m: Moment, op: Op, m': Moment, gone: set<nat>)
    requires m.Ok() && m'.Ok() && op.Reserve? && Int32(op.ttl)
  {
    && LosesIn(m.w, m'.w, gone) && (gone != {} ==> m.Tight(op))
    && forall s :: s in gone ==> s < |m.st.wref| && (m.st.Movable(s) || op.tooOld(m'.mature, s))
  }

  /**
   * The item of a reservation is written at l, where the bucket's last segment ends or at the beginning
   * of another, on a segment of its bucket's ttl, and waits.
   */
  ghost predicate WrittenAt(m: Moment, op: Op, l: Loc, m': Moment)
    requires m.Ok() && m'.Ok() && op.Reserve? && Int32(op.ttl)
  {
    && InMem(m'.w.mem, l) && ItemAt(m'.w.mem, l) == op.it
    && m'.w.at[l.seg] <= m.st.now && m'.w.ttl[l.seg] == BucketTtl(FindIdx(op.ttl))
    && m'.w.pending == m.w.pending + [Entry(m.w.hs.g(op.it.key), 0, l)]
    && if m.Short(op) then l.off == 0
       else m.st.links.last[FindIdx(op.ttl)] == l.seg < |m.offsets| && m.offsets[l.seg] == l.off
  }

  /** The event of a reservation that succeeds. */
  ghost predicate Written(m: Moment, op: Op, e: Event, m': Moment)
    requires m.Ok() && m'.Ok() && op.Reserve? && Int32(op.ttl)
  {
    && e.Reserved? && e.it == op.it && e.ttl == op.ttl && e.at == m.st.now && (e.tight <==> m.Tight(op))
    && WrittenAt(m, op, e.loc, m') && e.made == m'.w.at[e.loc.seg]
  }

  /** What a reservation does, and the exact condition of each of its endings. */
  ghost predicate DidReserve(m: Moment, op: Op, e: Event, m': Moment)
    requires m.Ok() && op.Reserve?
  {
    && Int32(op.ttl) && m'.st.now == m.st.now && m'.flushAt == m.flushAt
    && (e.Stalled? <==> m.Short(op) && m.Source(op).Drained?)
    && (e.Looping? <==> m.Short(op) && m.Obtainable(op) && m.flushAt >= m.st.now)
    && (e.Refused? <==> ItemSize(op.it) > m.segSize || (m.Short(op) && m.Source(op).Nowhere?))
    && (e.Refused? ==> m'.Ok() && Costs(m, op, m', {}) && m'.w.pending == m.w.pending)
    && (!Over(e) && !e.Refused? ==> m'.Ok() && Written(m, op, e, m') && exists gone :: Costs(m, op, m', gone))
  }

  /** What an operation does after the events tr, and the event that tells of it. */
  ghost predicate Did(m: Moment, op: Op, tr: seq<Event>, e: Event, m': Moment) {
    && m.Ok()
    && match op
       case Reserve(_, _, _, _, _) => DidReserve(m, op, e, m')
       case Insert(r) =>
         && r < |tr| && tr[r].Reserved? && e == Stored(tr[r].it, r) && Untouched(m, m')
         && forall k :: m'.w.Look(k) == if k == e.it.key then Some(tr[r].loc) else m.w.Look(k)
       case Get(key, _) =>
         && e == Read(key, m.Answer(key), m.st.now) && Untouched(m, m')
         && forall k :: m'.w.Look(k) == m.w.Look(k)
       case Delete(key) =>
         && e == Removed(key, m.w.Look(key).Some?) && Untouched(m, m')
         && forall k :: m'.w.Look(k) == if k == key then None else m.w.Look(k)
       case Expire =>
         && e == Passed && Untouched(m, m')
         && forall k :: m'.w.Look(k) == if Outdated(m, k) then None else m.w.Look(k)
       case Flush => e == Flushed(m.st.now) && m' == m.(flushAt := m.st.now)
       case Tick(seconds) => e == Passed && m' == m.(st := m.st.(now := m.st.now + seconds))
  }

  /** The key leads to a segment that is past its ttl by more than two seconds, or older than the last flush. */
  ghost predicate Outdated(m: Moment, k: Key)
    requires m.Ok()
  {
    m.w.Look(k).Some? && var s := m.w.Look(k).value.seg;
      m.w.at[s] + m.w.ttl[s] < m.st.now - 2 || m.w.at[s] < m.flushAt
  }

  /** A run: ms[i] is before operation i, whose event is tr[i], and ms[i + 1] after it. */
  ghost predicate AllDid(ms: seq<Moment>, ops: seq<Op>, tr: seq<Event>) {
    && |ms| == |tr| + 1 && |tr| <= |ops|
    && forall i :: 0 <= i < |tr| ==> Did(ms[i], ops[i], tr[..i], tr[i], ms[i + 1])
  }

  lemma DidMore(ms: seq<Moment>, ops: seq<Op>, tr: seq<Event>, e: Event, m': Moment)
    requires AllDid(ms, ops, tr) && |tr| < |ops| && Did(ms[|tr|], ops[|tr|], tr, e, m')
    ensures AllDid(ms + [m'], ops, tr + [e])
  {
    hide Did;
    var ms', tr' := ms + [m'], tr + [e];
    forall i | 0 <= i < |tr'| ensures Did(ms'[i], ops[i], tr'[..i], tr'[i], ms'[i + 1]) {
      assert tr'[..i] == if i < |tr| then tr[..i] else tr;
    }
  }

  /** The time the operations take. */
  function Seconds(ops: seq<Op>): nat {
    if ops == [] then 0
    else
      var op := ops[|ops| - 1];
      Seconds(ops[..|ops| - 1]) + if op.Tick? then op.seconds else 0
  }

  /** The clock of a run moves with its ticks, and the last flush is that of the events. */
  lemma {:induction false} RunTimes(ms: seq<Moment>, ops: seq<Op>, tr: seq<Event>, i: nat)
    requires AllDid(ms, ops, tr) && i <= |tr|
    ensures ms[i].st.now == ms[0].st.now + Seconds(ops[..i])
    ensures ms[i].flushAt == LastFlush(tr[..i], ms[0].flushAt)
  {
    if i > 0 {
      RunTimes(ms, ops, tr, i - 1);
      assert ops[..i][..i - 1] == ops[..i - 1] && tr[..i][..i - 1] == tr[..i - 1];
      Elapsed(ms[i - 1], ops[i - 1], tr[..i - 1], tr[i - 1], ms[i]);
    }
  }

  lemma Elapsed(m: Moment, op: Op, tr: seq<Event>, e: Event, m': Moment)
    requires Did(m, op, tr, e, m')
    ensures m'.st.now == m.st.now + if op.Tick? then op.seconds else 0
    ensures m'.flushAt == if e.Flushed? then e.at else m.flushAt
    ensures e.Flushed? || e.Read? || e.Reserved? ==> e.at == m.st.now
  {
    hide World.Sound, World.Look, Site.Fits, Supplied, Costs;
  }

  // ---------------------------------------------------------------------------
  // The operations, one by one
  // ---------------------------------------------------------------------------

  /** Insert an item in waiting while the cache is quiet. */
  method InsertQuietly(c: Cache, l: Loc, ghost i: nat)
    requires c.Valid() && i < |c.pending| && c.pending[i].Entry? && c.pending[i].loc == l && InMem(c.heap.cells, l)
    modifies c`table, c`chains, c`newest, c`pending, c.heap`nLive, c.heap`liveBytes, c.heap`deleted, c.heap`wref
    ensures c.Valid() && c.pending == old(c.pending)[i := Empty]
    ensures var it := ItemAt(c.heap.cells, l);
            forall k :: c.W().Look(k) == if k == it.key then Some(l) else old(c.W()).Look(k)
  {
    hide World.Sound, World.Look, MarksOk, Cache.TableOk, ListsOk, SegTiled, SortedAlong, InRange1;
    c.ItemInsert(l, i);
  }

  /** Remove a key while the cache is quiet. */
  method RemoveQuietly(c: Cache, key: Key) returns (found: bool)
    requires c.Valid()
    modifies c`table, c`chains, c`newest, c.heap`nLive, c.heap`liveBytes, c.heap`deleted
    ensures c.Valid() && (found <==> old(c.W()).Look(key).Some?)
    ensures forall k :: c.W().Look(k) == if k == key then None else old(c.W()).Look(k)
  {
    hide World.Sound, World.Look, MarksOk, Cache.TableOk, ListsOk, SegTiled, SortedAlong, InRange1;
    found := c.ItemDelete(key);
  }

  /** What an operation needs. Writers are waited for where segments are removed, so there are none there. */
  predicate CanDo(c: Cache, op: Op, tr: seq<Event>)
    requires c.heap.Shaped()
    reads c.heap
  {
    match op
    case Reserve(it, ttl, _, tooOld, _) =>
      && ItemOk(it) && Int32(ttl) && c.CanReserve(it, ttl)
      && c.Unwritten(tooOld)
    case Insert(r) => r < |tr| && tr[r].Reserved? && forall j :: 0 <= j < |tr| && tr[j].Stored? ==> tr[j].r != r
    case Expire => forall s :: 0 <= s < c.heap.n && c.heap.Expired(s) ==> c.heap.wref[s] == 0
    case _ => true
  }

  lemma FollowsRefused(w: World, w': World, tr: seq<Event>, open: seq<nat>, f0: int, now: int, flushAt: int)
    requires Follows(w, tr, open, f0, now, flushAt) && w'.Sound() && LosesIn(w, w', {}) && |w'.pending| == |w.pending|
    ensures Follows(w', tr + [Refused], open, f0, now, flushAt)
  {
    hide World.Sound, World.Look, Tracked, Kept, Queued, TimesOk, Waiting, NoNewer;
    LosesOnly(w, w', {});
    FollowsPlain(w, w', tr, Refused, open, f0, now, now, flushAt);
  }

  /** Reserve room for an item and write it there. How it ends is decided by the state before. */
  method ReserveRoom(c: Cache, op: Op) returns (r: SegCache.Reserved, ghost how: Origin)
    requires c.Valid() && c.heap.Shaped() && op.Reserve? && CanDo(c, op, [])
    modifies c, c.heap
    ensures old(Now(c)).Ok() && c.heap.Shaped()
    ensures c.heap.now == old(c.heap.now) && c.heap.flushAt == old(c.heap.flushAt)
    ensures var m := old(Now(c));
            Ending(ItemSize(op.it) <= m.segSize, m.Roomy(FindIdx(op.ttl), ItemSize(op.it)), m.Source(op),
                   m.flushAt < m.st.now, r)
    ensures !r.Stuck? && !r.Unopened? ==> c.Valid() && Now(c).Ok() && Costs(old(Now(c)), op, Now(c), Lost(how))
    ensures r.Oversized? || r.NoMemory? ==> Lost(how) == {} && c.pending == old(c.pending)
    ensures r.Ok? ==> WrittenAt(old(Now(c)), op, r.loc, Now(c))
  {
    hide Cache.Valid, World.Sound, World.Look, OnlyLoses, LosesIn, ItemOk, ItemSize, FindIdx, Cache.Roomy,
      Moment.Roomy, Supplied, Cache.LinkedBy, Waiting, MayLose, Stable, Cache.CanReserve, Cache.NotOpen,
      Cache.IndexOk, BucketTtl, Used, Costs, Site.Fits;
    ghost var m := Now(c);
    c.ValidFits();
    SameRoom(c, FindIdx(op.ttl), ItemSize(op.it));
    c.EndsAs(FindIdx(op.ttl), ItemSize(op.it), op.b0, op.tooOld);
    r, how := c.ItemReserve(op.it, op.ttl, op.b0, op.tooOld, op.keep);
    if !r.Stuck? && !r.Unopened? {
      c.ValidFits();
      CostsAre(m, op, Now(c), how);
    }
  }

  /** The same, with the event that tells of it. */
  method ReserveQuietly(c: Cache, op: Op) returns (e: Event, ghost gone: set<nat>)
    requires c.Valid() && c.heap.Shaped() && op.Reserve? && CanDo(c, op, [])
    modifies c, c.heap
    ensures old(Now(c)).Ok() && DidReserve(old(Now(c)), op, e, Now(c)) && !e.Read?
    ensures !Over(e) ==> c.Valid() && Now(c).Ok() && Costs(old(Now(c)), op, Now(c), gone)
  {
    hide Cache.Valid, World.Sound, ItemOk, ItemSize, FindIdx, Cache.Roomy, Moment.Roomy, Supplied, Cache.CanReserve,
      Costs, Site.Fits, DidReserve, Ending, WrittenAt;
    ghost var m := Now(c);
    c.ValidFits();
    SameRoom(c, FindIdx(op.ttl), ItemSize(op.it));
    var tight := c.heap.links.nFree <= c.heap.nReserved && !c.Roomy(FindIdx(op.ttl), ItemSize(op.it));
    var r;
    ghost var how;
    r, how := ReserveRoom(c, op);
    gone := Lost(how);
    match r {
      case Stuck => e := Stalled;
      case Unopened(_) => e := Looping;
      case Ok(l) =>
        WrittenIn(m, op, l, Now(c));
        e := Reserved(op.it, op.ttl, c.heap.now, c.heap.createAt[l.seg], l, tight);
      case _ => e := Refused;
    }
    ReserveIs(m, op, r, e, Now(c), gone);
  }

  lemma WrittenIn(m: Moment, op: Op, l: Loc, m': Moment)
    requires m.Ok() && m'.Ok() && op.Reserve? && Int32(op.ttl) && WrittenAt(m, op, l, m')
    ensures l.seg < |m'.w.mem| == |m'.w.at|
  {
  }

  /** The event tells how the reservation ended. */
  lemma ReserveIs(m: Moment, op: Op, r: SegCache.Reserved, e: Event, m': Moment, gone: set<nat>)
    requires m.Ok() && op.Reserve? && Int32(op.ttl) && m'.st.now == m.st.now && m'.flushAt == m.flushAt
    requires Ending(ItemSize(op.it) <= m.segSize, m.Roomy(FindIdx(op.ttl), ItemSize(op.it)), m.Source(op),
                    m.flushAt < m.st.now, r)
    requires (r.Stuck? <==> e.Stalled?) && (r.Unopened? <==> e.Looping?) && (r.Ok? <==> e.Reserved?)
    requires r.Oversized? || r.NoMemory? <==> e.Refused?
    requires !Over(e) ==> m'.Ok() && Costs(m, op, m', gone)
    requires e.Refused? ==> gone == {} && m'.w.pending == m.w.pending
    requires e.Reserved? ==> Written(m, op, e, m')
    ensures DidReserve(m, op, e, m')
  {
    hide World.Sound, Site.Fits, Moment.Roomy, Supplied, Costs, Written, ItemSize, FindIdx;
  }

  method DoReserve(c: Cache, op: Op, ghost tr: seq<Event>, ghost open: seq<nat>, ghost f0: int)
    returns (e: Event, ghost open': seq<nat>)
    requires Following(c, tr, open, f0) && c.heap.Shaped() && op.Reserve? && CanDo(c, op, tr)
    modifies c, c.heap
    ensures !Over(e) ==> Following(c, tr + [e], open', f0)
    ensures !e.Read? && Did(old(Now(c)), op, tr, e, Now(c))
  {
    hide Cache.Valid, World.Sound, World.Look, Tracked, Kept, Queued, TimesOk, LosesIn, ItemOk, ItemSize, FindIdx,
      Moment.Roomy, Supplied, Cache.CanReserve, BucketTtl, Site.Fits;
    ghost var w := c.W();
    c.ValidFits();
    ghost var gone;
    e, gone := ReserveQuietly(c, op);
    open' := open;
    if e.Reserved? {
      c.ValidFits();
      open' := open + [|tr|];
      FollowsReserved(w, c.W(), tr, e, open, gone, f0, c.heap.now, c.heap.flushAt);
    } else if e.Refused? {
      FollowsRefused(w, c.W(), tr, open, f0, c.heap.now, c.heap.flushAt);
    }
  }

  lemma SameRoom(c: Cache, b: nat, sz: nat)
    requires c.heap.Shaped() && b < N_BUCKET && Now(c).Ok()
    ensures Now(c).Roomy(b, sz) == c.Roomy(b, sz)
  {
  }

  lemma CostsAre(m: Moment, op: Op, m': Moment, how: Origin)
    requires m.Ok() && m'.Ok() && op.Reserve? && Int32(op.ttl) && LosesIn(m.w, m'.w, Lost(how))
    requires Lost(how) != {} ==> m.Tight(op)
    requires MayLose(m.st, how, AtAge(op.tooOld, m'.mature))
    ensures Costs(m, op, m', Lost(how))
  {
    hide World.Sound, LosesIn, Moment.Tight;
  }

  method DoInsert(c: Cache, r: nat, tr: seq<Event>, ghost open: seq<nat>, ghost f0: int) returns (e: Event)
    requires Following(c, tr, open, f0) && c.heap.Shaped() && CanDo(c, Insert(r), tr)
    modifies c, c.heap
    ensures Following(c, tr + [e], open, f0) && !e.Read? && Did(old(Now(c)), Insert(r), tr, e, Now(c))
  {
    hide Cache.Valid, World.Sound, World.Look, Tracked, Kept, TimesOk;
    ghost var w := c.W();
    c.ValidFits();
    ghost var i := QueuedAt(w, tr, open, r);
    var l := tr[r].loc;
    InsertQuietly(c, l, i);
    c.ValidFits();
    e := Stored(tr[r].it, r);
    FollowsStored(w, c.W(), tr, e, open, i, l, f0, c.heap.now, c.heap.flushAt);
  }

  lemma QueuedAt(w: World, tr: seq<Event>, open: seq<nat>, r: nat) returns (i: nat)
    requires w.Sound() && Queued(w, tr, open) && r < |tr| && tr[r].Reserved?
    requires forall j :: 0 <= j < |tr| && tr[j].Stored? ==> tr[j].r != r
    ensures i < |open| == |w.pending| && open[i] == r && w.pending[i].Entry? && w.pending[i].loc == tr[r].loc
    ensures InMem(w.mem, tr[r].loc) && ItemAt(w.mem, tr[r].loc) == tr[r].it
  {
    hide World.Sound;
    assert Waits(w, open, r);
    i :| 0 <= i < |open| == |w.pending| && open[i] == r && w.pending[i].Entry?;
    assert Awaits(w, tr, w.pending[i], open[i]);
  }

  method DoGet(c: Cache, key: Key, freq: nat, ghost tr: seq<Event>, ghost open: seq<nat>, ghost f0: int)
    returns (e: Event)
    requires Following(c, tr, open, f0)
    modifies c, c.heap
    ensures Following(c, tr + [e], open, f0) && Honest(tr, e, f0) && Did(old(Now(c)), Get(key, freq), tr, e, Now(c))
  {
    hide Cache.Valid, World.Sound, World.Look, Tracked, Kept, Queued, TimesOk, OnlyLoses, Honest;
    ghost var w := c.W();
    c.ValidFits();
    var r := GetQuietly(c, key, freq);
    c.ValidFits();
    e := Read(key, r, c.heap.now);
    ReadHonest(w, tr, open, e, f0, c.heap.now, c.heap.flushAt);
    SamePlaces(w, c.W(), c.heap.now, c.heap.flushAt);
    FollowsPlain(w, c.W(), tr, e, open, f0, c.heap.now, c.heap.now, c.heap.flushAt);
  }

  /** Read a key while the cache is quiet: it is found just when its segment is open. */
  method GetQuietly(c: Cache, key: Key, freq: nat) returns (r: Option<Item>)
    requires c.Valid()
    modifies c`table, c`chains
    ensures c.Valid() && forall k :: c.W().Look(k) == old(c.W()).Look(k)
    ensures r.Some? ==> old(c.W()).Look(key).Some? && r.value == ItemAt(c.heap.cells, old(c.W()).Look(key).value)
    ensures r.Some? <==>
              old(c.W()).Look(key).Some? && !Closed(old(c.W()), old(c.W()).Look(key).value, c.heap.now, c.heap.flushAt)
  {
    hide World.Sound, World.Look, MarksOk, Cache.TableOk, ListsOk, SegTiled, SortedAlong, InRange1;
    ghost var w := c.W();
    if w.Look(key).Some? {
      c.LookLinked(key);
    }
    r := c.ItemGet(key, freq);
  }

  /** The same places in the same memory. */
  lemma SamePlaces(w: World, w': World, now: int, flushAt: int)
    requires w.Sound() && w'.Sound() && w'.mem == w.mem && w'.at == w.at && w'.ttl == w.ttl && w'.pending == w.pending
    requires forall k :: w'.Look(k) == w.Look(k)
    ensures OnlyLoses(w, w') && LosesClosed(w, w', now, flushAt) && Waiting(w, w')
  {
    WaitingSelf(w, w');
  }

  method DoDelete(c: Cache, key: Key, ghost tr: seq<Event>, ghost open: seq<nat>, ghost f0: int) returns (e: Event)
    requires Following(c, tr, open, f0)
    modifies c, c.heap
    ensures Following(c, tr + [e], open, f0) && !e.Read? && Did(old(Now(c)), Delete(key), tr, e, Now(c))
  {
    hide Cache.Valid, World.Sound, World.Look, Tracked, Kept, Queued, TimesOk;
    ghost var w := c.W();
    c.ValidFits();
    var found := RemoveQuietly(c, key);
    c.ValidFits();
    e := Removed(key, found);
    FollowsRemoved(w, c.W(), tr, e, open, f0, c.heap.now, c.heap.flushAt);
  }

  /** Segments that are past their ttl or older than the last flush are removed, with the keys that lead there. */
  method DoExpire(c: Cache, ghost tr: seq<Event>, ghost open: seq<nat>, ghost f0: int) returns (e: Event)
    requires Following(c, tr, open, f0) && c.heap.Shaped() && CanDo(c, Expire, tr)
    modifies c, c.heap
    ensures Following(c, tr + [e], open, f0) && !e.Read? && Did(old(Now(c)), Expire, tr, e, Now(c))
  {
    hide Cache.Valid, World.Sound, World.Look, Tracked, Kept, Queued, TimesOk, OnlyLoses;
    ghost var w := c.W();
    c.ValidFits();
    c.CheckSegExpire();
    c.ValidFits();
    e := Passed;
    ExpiredClosed(w, c.W(), c.heap.now, c.heap.flushAt);
    FollowsPlain(w, c.W(), tr, e, open, f0, c.heap.now, c.heap.now, c.heap.flushAt);
  }

  lemma ExpiredClosed(w: World, w': World, now: int, flushAt: int)
    requires w.Sound() && w'.Sound() && w'.mem == w.mem && w'.at == w.at && w'.ttl == w.ttl && w'.pending == w.pending
    requires forall k :: w.Look(k).Some? ==> w.Look(k).value.seg < |w.at| == |w.ttl|
    requires forall k :: w'.Look(k) ==
               if w.Look(k).Some? && var s := w.Look(k).value.seg; w.at[s] + w.ttl[s] < now - 2 || w.at[s] < flushAt
               then None else w.Look(k)
    ensures OnlyLoses(w, w') && LosesClosed(w, w', now, flushAt) && Waiting(w, w')
  {
    WaitingSelf(w, w');
  }

  /** Time passes. */
  method DoTick(c: Cache, seconds: nat, ghost tr: seq<Event>, ghost open: seq<nat>, ghost f0: int) returns (e: Event)
    requires Following(c, tr, open, f0)
    modifies c.heap`now
    ensures Following(c, tr + [e], open, f0) && !e.Read? && Did(old(Now(c)), Tick(seconds), tr, e, Now(c))
  {
    hide World.Sound, World.Look, MarksOk, Cache.TableOk, ListsOk, SegTiled, SortedAlong, InRange1;
    hide Tracked, Kept, Queued, TimesOk, OnlyLoses;
    ghost var w := c.W();
    c.ValidFits();
    c.heap.now := c.heap.now + seconds;
    e := Passed;
    SamePlaces(w, w, c.heap.now, c.heap.flushAt);
    FollowsPlain(w, w, tr, e, open, f0, old(c.heap.now), c.heap.now, c.heap.flushAt);
  }

  /** Everything written up to now is gone for readers, at once; its memory is freed by a later expiry. */
  method DoFlush(c: Cache, ghost tr: seq<Event>, ghost open: seq<nat>, ghost f0: int) returns (e: Event)
    requires Following(c, tr, open, f0)
    modifies c.heap`flushAt
    ensures Following(c, tr + [e], open, f0) && !e.Read? && Did(old(Now(c)), Flush, tr, e, Now(c))
    ensures forall s :: 0 <= s < c.heap.n && c.heap.lists.owner[s] >= 0 ==> !c.heap.SegIsAccessible(s)
  {
    hide World.Sound, World.Look, MarksOk, Cache.TableOk, ListsOk, SegTiled, SortedAlong, InRange1;
    hide Tracked, Kept, Queued, TimesOk, OnlyLoses;
    ghost var w := c.W();
    c.ValidFits();
    c.heap.flushAt := c.heap.now;
    e := Flushed(c.heap.now);
    FollowsFlushed(w, tr, open, f0, c.heap.now, old(c.heap.flushAt));
  }

  // ---------------------------------------------------------------------------
  // Runs
  // ---------------------------------------------------------------------------

  /** One operation: it does what it is to do, tells of it, and its event is honest. */
  method Step(c: Cache, op: Op, tr: seq<Event>, ghost open: seq<nat>, ghost f0: int)
    returns (e: Event, ghost open': seq<nat>)
    requires Following(c, tr, open, f0) && c.heap.Shaped() && CanDo(c, op, tr)
    modifies c, c.heap
    ensures Did(old(Now(c)), op, tr, e, Now(c))
    ensures Honest(tr, e, f0) && (!Over(e) ==> Following(c, tr + [e], open', f0))
  {
    hide Following, Honest, CanDo, Did, Now;
    open' := open;
    match op
    case Reserve(_, _, _, _, _) => e, open' := DoReserve(c, op, tr, open, f0); NotRead(tr, e, f0);
    case Insert(r) => e := DoInsert(c, r, tr, open, f0); NotRead(tr, e, f0);
    case Get(key, freq) => e := DoGet(c, key, freq, tr, open, f0);
    case Delete(key) => e := DoDelete(c, key, tr, open, f0); NotRead(tr, e, f0);
    case Expire => e := DoExpire(c, tr, open, f0); NotRead(tr, e, f0);
    case Flush => e := DoFlush(c, tr, open, f0); NotRead(tr, e, f0);
    case Tick(seconds) => e := DoTick(c, seconds, tr, open, f0); NotRead(tr, e, f0);
  }

  lemma NotRead(tr: seq<Event>, e: Event, f0: int)
    requires !e.Read?
    ensures Honest(tr, e, f0)
  {
  }

  /**
   * A run from an empty cache: every operation does what it is to do, at the time that the ticks
   * before it come to, and every read is honest. The run goes on to the end, unless an operation is
   * not possible, or a reservation finds no segment to merge into or goes round in its loop.
   */
  method Run(c: Cache, ops: seq<Op>)
    returns (tr: seq<Event>, over: bool, ghost ms: seq<Moment>, ghost open: seq<nat>)
    requires c.Valid() && c.pending == [] && c.heap.flushAt <= c.heap.now && forall k :: c.W().Look(k) == None
    modifies c, c.heap
    ensures AllDid(ms, ops, tr) && ms[0] == old(Now(c)) && ms[|tr|] == Now(c)
    ensures forall i :: 0 <= i <= |tr| ==> ms[i].st.now == old(c.heap.now) + Seconds(ops[..i])
    ensures AllHonest(tr, old(c.heap.flushAt))
    ensures over <==> tr != [] && Over(tr[|tr| - 1])
    ensures !over ==> Following(c, tr, open, old(c.heap.flushAt)) && c.heap.Shaped()
    ensures !over ==> |tr| == |ops| || !CanDo(c, ops[|tr|], tr)
  {
    hide Following, Honest, CanDo, AllHonest, Cache.Valid, World.Look, World.Sound, Did, AllDid, Seconds;
    ghost var f0 := c.heap.flushAt;
    tr, ms, open, over := [], [Now(c)], [], false;
    FollowsNothing(c);
    FollowingShaped(c, tr, open, f0);
    RunBegins(ms, ops, f0);
    while |tr| < |ops| && CanDo(c, ops[|tr|], tr)
      invariant |tr| <= |ops| && AllHonest(tr, f0) && Following(c, tr, open, f0) && c.heap.Shaped()
      invariant |ms| == |tr| + 1 && AllDid(ms, ops, tr) && ms[0] == old(Now(c)) && ms[|tr|] == Now(c)
      invariant tr != [] ==> !Over(tr[|tr| - 1])
      decreases |ops| - |tr|
    {
      var e;
      e, open := Step(c, ops[|tr|], tr, open, f0);
      HonestMore(tr, e, f0);
      DidMore(ms, ops, tr, e, Now(c));
      tr, ms := tr + [e], ms + [Now(c)];
      if Over(e) {
        over := true;
        RunClock(ms, ops, tr);
        return;
      }
      FollowingShaped(c, tr, open, f0);
    }
    RunClock(ms, ops, tr);
  }

  lemma RunClock(ms: seq<Moment>, ops: seq<Op>, tr: seq<Event>)
    requires AllDid(ms, ops, tr)
    ensures |ms| == |tr| + 1 && |tr| <= |ops|
    ensures forall i :: 0 <= i <= |tr| ==> ms[i].st.now == ms[0].st.now + Seconds(ops[..i])
  {
    hide Did, Seconds;
    forall i | 0 <= i <= |tr| ensures ms[i].st.now == ms[0].st.now + Seconds(ops[..i]) {
      RunTimes(ms, ops, tr, i);
    }
  }

  lemma RunBegins(ms: seq<Moment>, ops: seq<Op>, f0: int)
    requires |ms| == 1
    ensures AllDid(ms, ops, []) && AllHonest([], f0)
  {
  }

  lemma FollowingShaped(c: Cache, tr: seq<Event>, open: seq<nat>, f0: int)
    requires Following(c, tr, open, f0)
    ensures c.heap.Shaped()
  {
    c.ValidShaped();
  }

  lemma FollowsNothing(c: Cache)
    requires c.Valid() && c.pending == [] && c.heap.flushAt <= c.heap.now && forall k :: c.W().Look(k) == None
    ensures Following(c, [], [], c.heap.flushAt)
  {
    hide World.Sound, World.Look, MarksOk, Cache.TableOk, InRange1, Heap.Quiet;
  }
}
