/**
 * The segment headers, the lists they are linked into, and the segments' memory.
 *
 * A header's fields are kept one array per field, so that each method's frame names the
 * fields it writes. `lists` says what the links spell.
 */
module SegHeap {
  import opened SegItems
  import opened SegIndex
  import opened SegLists
  import opened SegScan
  import opened TtlBuckets

  ghost predicate SortedAlong(createAt: seq<int>, q: seq<int>) {
    && InRange(q, |createAt|)
    && forall i, j :: 0 <= i < j < |q| ==> createAt[q[i]] <= createAt[q[j]]
  }

  lemma SortedWithout(createAt: seq<int>, q: seq<int>, i: nat)
    requires SortedAlong(createAt, q) && i < |q|
    ensures SortedAlong(createAt, Without(q, i))
  {
    var r := Without(q, i);
    forall j, k | 0 <= j < k < |r| ensures createAt[r[j]] <= createAt[r[k]] {
    }
  }

  lemma SortedReplace(createAt: seq<int>, q: seq<int>, i: nat, s: nat)
    requires SortedAlong(createAt, q) && i < |q| && s < |createAt| && createAt[s] == createAt[q[i]]
    ensures SortedAlong(createAt, q[i := s])
  {
    var r := q[i := s];
    forall j, k | 0 <= j < k < |r| ensures createAt[r[j]] <= createAt[r[k]] {
      assert createAt[q[j]] <= createAt[q[k]];
    }
  }

  lemma SortedAppend(createAt: seq<int>, q: seq<int>, s: nat)
    requires SortedAlong(createAt, q) && s < |createAt|
    requires forall i :: 0 <= i < |q| ==> createAt[q[i]] <= createAt[s]
    ensures SortedAlong(createAt, q + [s])
  {
  }

  lemma SortedSame(createAt: seq<int>, createAt': seq<int>, q: seq<int>)
    requires SortedAlong(createAt, q) && |createAt'| == |createAt|
    requires forall i :: 0 <= i < |q| ==> createAt'[q[i]] == createAt[q[i]]
    ensures SortedAlong(createAt', q)
  {
  }

  /** What is left of a list without its dead segments, if those are in front. */
  function Survivors(q: seq<int>, dead: seq<bool>): (r: seq<int>)
    requires InRange(q, |dead|)
    ensures InRange(r, |dead|)
  {
    if q != [] && dead[q[0]] then Survivors(q[1..], dead) else q
  }

  /**
   * In a list sorted by creation whose segments share one ttl, the dead are exactly a prefix,
   * so the survivors of the walk from the front are all the segments that are not dead.
   */
  lemma {:induction false} SurvivorsAlive(q: seq<int>, dead: seq<bool>, createAt: seq<int>, t: int, now: int,
                                          flushAt: int)
    requires SortedAlong(createAt, q) && |createAt| == |dead|
    requires forall i :: 0 <= i < |q| ==> dead[q[i]] == (createAt[q[i]] + t < now - 2 || createAt[q[i]] < flushAt)
    ensures forall i :: 0 <= i < |Survivors(q, dead)| ==> !dead[Survivors(q, dead)[i]]
    ensures forall x :: x in q && !dead[x] ==> x in Survivors(q, dead)
  {
    if q != [] && dead[q[0]] {
      SurvivorsAlive(q[1..], dead, createAt, t, now, flushAt);
      assert q == [q[0]] + q[1..];
    }
  }

  /** Segment headers are pushed onto the free pool from the last to the first. */
  method SetupLinks(n: nat) returns (l: Links)
    ensures ListsOk(l, Spelling(seq(N_BUCKET, _ => []), seq(n, i => i), seq(n, _ => FREE)))
    ensures l.nFree == n
  {
    var none := seq(N_BUCKET, _ => -1);
    l := Links(seq(n, _ => -1), seq(n, _ => -1), none, none, seq(N_BUCKET, _ => 0), -1, 0);
    ghost var w := Spelling(seq(N_BUCKET, _ => []), [], seq(n, _ => HELD));
    for i := n downto 0
      invariant ListsOk(l, w) && |w.owner| == n && l.nFree == n - i
      invariant w.chains == seq(N_BUCKET, _ => []) && w.free == seq(n - i, j => i + j)
      invariant forall s :: 0 <= s < n ==> w.owner[s] == if s < i then HELD else FREE
    {
      FreedOk(l, w, i);
      l, w := Freed(l, i), FreedTo(w, i);
      assert w.free == seq(n - i, j => i + j);
    }
    assert w.owner == seq(n, _ => FREE) && w.free == seq(n, i => i);
  }

  /** Which segments are past their ttl or older than the last flush. */
  function Deads(createAt: seq<int>, ttl: seq<int>, now: int, flushAt: int): (dead: seq<bool>)
    requires |createAt| == |ttl|
    ensures |dead| == |createAt|
    ensures forall s :: 0 <= s < |dead| ==> dead[s] == (createAt[s] + ttl[s] < now - 2 || createAt[s] < flushAt)
  {
    seq(|createAt|, s requires 0 <= s < |createAt| == |ttl| => createAt[s] + ttl[s] < now - 2 || createAt[s] < flushAt)
  }

  /**
   * A segment is unlinked with the bucket that its ttl leads to. That is right, and leaves the lists
   * without it, just when its own bucket is a used one.
   */
  lemma UnlinkIffUsed(l: Links, w: Spelling, b: nat, i: nat)
    requires ListsOk(l, w) && b < |w.chains| == N_BUCKET && i < |w.chains[b]|
    ensures Follows(l, w.chains[b][i])
    ensures ListsOk(Removed(l, FindIdx(BucketTtl(b)), w.chains[b][i]), RemovedAt(w, b, i)) <==> Used(b)
  {
    hide ListsOk;
    OwnTtlFindsBucket(b);
    RemovedOnlyFromOwn(l, w, b, i, FindIdx(BucketTtl(b)));
  }

  class Heap {
    const segSize: nat
    const n: nat
    const nReserved: nat

    var links: Links
    var writeOffset: seq<int>
    var liveBytes: seq<int>
    var nLive: seq<int>
    var createAt: seq<int>
    var ttl: seq<int>
    var wref: seq<int>
    var accessible: seq<bool>
    var evictable: seq<bool>

    var cells: seq<Cells>
    /** The items whose header carries the deleted bit. */
    var deleted: set<Loc>

    var now: int
    var flushAt: int
    /** Segments younger than this are not evicted. */
    var matureTime: nat

    ghost var lists: Spelling
    /** Where the items of each segment end. */
    ghost var ends: seq<nat>

    ghost predicate Shaped()
      reads this
    {
      && |writeOffset| == |liveBytes| == |nLive| == |createAt| == |ttl| == |wref| == n
      && |accessible| == |evictable| == |cells| == |ends| == n
      && |links.prev| == |links.next| == |lists.owner| == n
      && |links.first| == |links.last| == |links.nSeg| == |lists.chains| == N_BUCKET
    }

    /** A linked segment carries its bucket's ttl, and the bucket is one that ttl leads back to. */
    ghost predicate TtlOk()
      reads `ttl, `lists
    {
      && |ttl| == |lists.owner| == n
      && forall s :: 0 <= s < n && lists.owner[s] >= 0 ==>
           lists.owner[s] < N_BUCKET && Used(lists.owner[s]) && ttl[s] == BucketTtl(lists.owner[s])
    }

    /** Segments of a list are in order of creation, none from the future; time begins at 0. */
    ghost predicate Sorted()
      reads `lists, `createAt, `now
    {
      && |createAt| == |lists.owner| == n && now >= 0
      && (forall s :: 0 <= s < n && lists.owner[s] >= 0 ==> 0 <= createAt[s] <= now)
      && forall b :: 0 <= b < |lists.chains| ==> SortedAlong(createAt, lists.chains[b])
    }

    /** Each segment is tiled by its items; a free one holds none; only linked ones can be evicted. */
    ghost predicate SegsOk()
      reads `cells, `writeOffset, `ends, `lists, `accessible, `evictable
    {
      && |cells| == |writeOffset| == |ends| == |accessible| == |evictable| == |lists.owner| == n
      && (forall s :: 0 <= s < n ==> SegTiled(cells[s], segSize, writeOffset[s], ends[s]))
      && (forall s :: 0 <= s < n && lists.owner[s] == FREE ==> ends[s] == 0 && !accessible[s])
      && (forall s :: 0 <= s < n && lists.owner[s] >= 0 ==> accessible[s])
      && (forall s :: 0 <= s < n && evictable[s] ==> lists.owner[s] >= 0)
    }

    /** What the headers, lists and memory satisfy at all times. */
    ghost predicate Inv()
      reads this
    {
      Shaped() && ListsOk(links, lists) && TtlOk() && Sorted() && SegsOk()
    }

    /** Every linked segment has items, except for segment s. */
    ghost predicate FilledBut(s: int)
      reads `lists, `ends
    {
      |lists.owner| == |ends| == n && forall t :: 0 <= t < n && lists.owner[t] >= 0 && t != s ==> ends[t] > 0
    }

    /** Between operations no segment is held, and every linked one may be evicted. */
    ghost predicate Quiet()
      reads this
    {
      QuietBut(-1)
    }

    /** Only segment h is held; every linked one may be evicted. */
    ghost predicate QuietBut(h: int)
      reads this
    {
      && Inv()
      && (forall s :: 0 <= s < n ==> (lists.owner[s] == HELD <==> s == h))
      && (forall s :: 0 <= s < n && lists.owner[s] >= 0 ==> evictable[s])
    }

    /** All segments start out in the free pool, in order. */
    constructor (segSize: nat, n: nat, nReserved: nat, matureTime: nat)
      ensures this.segSize == segSize && this.n == n && this.nReserved == nReserved
      ensures this.matureTime == matureTime
      ensures Quiet()
      ensures lists.free == seq(n, i => i) && links.nFree == n
      ensures forall s :: 0 <= s < n ==> lists.owner[s] == FREE && !evictable[s] && !accessible[s]
      ensures forall s :: 0 <= s < n ==> ends[s] == 0 && writeOffset[s] == 0
      ensures forall s :: 0 <= s < n ==> nLive[s] == 0 && liveBytes[s] == 0 && wref[s] == 0
      ensures deleted == {} && flushAt == -1 && now == 0
    {
      this.segSize, this.n, this.nReserved, this.matureTime := segSize, n, nReserved, matureTime;
      var zero := seq(n, _ => 0);
      writeOffset, liveBytes, nLive, createAt, ttl, wref := zero, zero, zero, zero, zero, zero;
      accessible, evictable := seq(n, _ => false), seq(n, _ => false);
      cells, deleted, now, flushAt := seq(n, _ => map[]), {}, 0, -1;
      ends := seq(n, _ => 0);
      var l := SetupLinks(n);
      links := l;
      lists := Spelling(seq(N_BUCKET, _ => []), seq(n, i => i), seq(n, _ => FREE));
      new;
      FreshQuiet();
    }

    lemma SiteFits()
      requires Inv()
      ensures Site().Fits(n) && Evictables() == Site().Evictables(matureTime)
      ensures forall s :: 0 <= s < n ==> Site().Movable(s) == Movable(s)
    {
      hide SegTiled, Linked, SortedAlong, NoDup, Owned;
      forall b | 0 <= b < N_BUCKET ensures -1 <= links.first[b] < n {
        ChainLinked(links, lists, b);
      }
    }

    lemma FreshQuiet()
      requires Shaped() && ListsOk(links, lists) && now >= 0
      requires forall b :: 0 <= b < N_BUCKET ==> lists.chains[b] == []
      requires forall s :: 0 <= s < n ==> lists.owner[s] == FREE && !evictable[s] && !accessible[s]
      requires forall s :: 0 <= s < n ==> ends[s] == 0 && writeOffset[s] == 0
      ensures Quiet()
    {
    }

    /** Take a segment out of its TTL bucket's list. */
    method RmSegFromTtlBucket(s: nat, ghost i: nat)
      requires Shaped() && ListsOk(links, lists) && TtlOk() && s < n && lists.owner[s] >= 0
      requires i < |lists.chains[lists.owner[s]]| && lists.chains[lists.owner[s]][i] == s
      modifies `links, `lists
      ensures Shaped() && ListsOk(links, lists) && TtlOk()
      ensures lists == RemovedAt(old(lists), old(lists.owner[s]), i) && links.nFree == old(links.nFree)
    {
      RemovedOk(links, lists, lists.owner[s], i);
      hide ListsOk, BucketTtl;
      OwnTtlFindsBucket(lists.owner[s]);
      var b := FindIdx(ttl[s]);
      ghost var before := links;
      var p, nx := links.prev[s], links.next[s];
      if p == -1 {
        links := links.(first := links.first[b := nx]);
      } else {
        links := links.(next := links.next[p := nx]);
      }
      if nx == -1 {
        links := links.(last := links.last[b := p]);
      } else {
        links := links.(prev := links.prev[nx := p]);
      }
      links := links.(nSeg := links.nSeg[b := links.nSeg[b] - 1]);
      assert links == Removed(before, b, s);
      lists := RemovedAt(lists, b, i);
    }

    /** Close a segment that is locked, and take it out of its list; it is then held. */
    method Detach(s: nat, ghost i: nat)
      requires Inv() && s < n && lists.owner[s] >= 0 && !evictable[s]
      requires i < |lists.chains[lists.owner[s]]| && lists.chains[lists.owner[s]][i] == s
      modifies `links, `lists, `accessible
      ensures Inv() && lists == RemovedAt(old(lists), old(lists.owner[s]), i) && links.nFree == old(links.nFree)
      ensures accessible == old(accessible)[s := false]
    {
      hide SegTiled, ListsOk, SortedAlong, Linked;
      accessible := accessible[s := false];
      SortedWithout(createAt, lists.chains[lists.owner[s]], i);
      RmSegFromTtlBucket(s, i);
    }

    /** Put a held segment at the head of the free pool. */
    method SegAddToFreepool(s: nat)
      requires Shaped() && ListsOk(links, lists) && s < n && lists.owner[s] == HELD
      modifies `links, `lists, `accessible, `writeOffset, `liveBytes, `ends
      ensures Shaped() && ListsOk(links, lists)
      ensures lists == FreedTo(old(lists), s) && links.nFree == old(links.nFree) + 1
      ensures accessible == old(accessible)[s := false] && writeOffset == old(writeOffset)[s := 0]
      ensures liveBytes == old(liveBytes)[s := 0] && ends == old(ends)[s := 0]
    {
      FreedOk(links, lists, s);
      ghost var before := links;
      var head := links.freeHead;
      links := links.(next := links.next[s := head], prev := links.prev[s := -1]);
      if head != -1 {
        links := links.(prev := links.prev[head := s]);
      }
      links := links.(freeHead := s, nFree := links.nFree + 1);
      assert links == Freed(before, s);
      accessible := accessible[s := false];
      writeOffset := writeOffset[s := 0];
      liveBytes := liveBytes[s := 0];
      lists, ends := FreedTo(lists, s), ends[s := 0];
    }

    /** The head of the free pool, or -1 if only the reserve is left and may not be used. */
    method SegGetFromFreepool(useReserved: bool) returns (s: int)
      requires Shaped() && ListsOk(links, lists)
      modifies `links, `lists
      ensures Shaped() && ListsOk(links, lists)
      ensures s == -1 <==> old(links.nFree) == 0 || (!useReserved && old(links.nFree) <= nReserved)
      ensures s == -1 ==> links == old(links) && lists == old(lists)
      ensures s != -1 ==> 0 <= s < n && old(lists.owner[s]) == FREE && old(lists.free) != [] && old(lists.free)[0] == s
      ensures s != -1 ==> lists == TakenFrom(old(lists)) && links.nFree == old(links.nFree) - 1
    {
      if links.nFree == 0 || (!useReserved && links.nFree <= nReserved) {
        return -1;
      }
      TakenOk(links, lists);
      s := links.freeHead;
      var nx := links.next[s];
      links := links.(nFree := links.nFree - 1, freeHead := nx);
      if nx != -1 {
        links := links.(prev := links.prev[nx := -1]);
      }
      lists := TakenFrom(lists);
    }

    /** Reset a held segment. Its memory keeps what was there. */
    method SegInit(s: nat)
      requires Shaped() && ListsOk(links, lists) && s < n && lists.owner[s] == HELD
      modifies `links, `writeOffset, `liveBytes, `nLive, `createAt, `accessible, `ends
      ensures Shaped() && ListsOk(links, lists) && links == Cleared(old(links), s)
      ensures writeOffset == old(writeOffset)[s := 0] && ends == old(ends)[s := 0]
      ensures liveBytes == old(liveBytes)[s := 0] && nLive == old(nLive)[s := 0]
      ensures createAt == old(createAt)[s := now] && accessible == old(accessible)[s := true]
    {
      ClearedOk(links, lists, s);
      writeOffset := writeOffset[s := 0];
      liveBytes := liveBytes[s := 0];
      links := links.(prev := links.prev[s := -1], next := links.next[s := -1]);
      nLive := nLive[s := 0];
      createAt := createAt[s := now];
      accessible := accessible[s := true];
      ends := ends[s := 0];
    }

    /** Reset the segment held. The others, and all lists, are as they were. */
    method Reset(s: nat)
      requires QuietBut(s) && s < n
      modifies `links, `writeOffset, `liveBytes, `nLive, `createAt, `accessible, `ends
      ensures QuietBut(s) && Shaped() && links == Cleared(old(links), s)
      ensures ends == old(ends)[s := 0] && writeOffset == old(writeOffset)[s := 0]
      ensures liveBytes == old(liveBytes)[s := 0] && nLive == old(nLive)[s := 0]
      ensures createAt == old(createAt)[s := now] && accessible == old(accessible)[s := true]
    {
      hide ListsOk, SegTiled, SortedAlong, Linked;
      ghost var at := createAt;
      SegInit(s);
      TiledNone(cells[s], segSize);
      forall b | 0 <= b < N_BUCKET ensures SortedAlong(createAt, lists.chains[b]) {
        assert SortedAlong(at, lists.chains[b]);
        ChainLinked(links, lists, b);
        SortedSame(at, createAt, lists.chains[b]);
      }
    }

    /** Link a freshly initialised segment at the end of bucket b's list. */
    method LinkLast(b: nat, s: nat)
      requires Shaped() && ListsOk(links, lists) && b < N_BUCKET
      requires s < n && lists.owner[s] == HELD && links.next[s] == -1
      modifies `links, `lists, `evictable
      ensures Shaped() && ListsOk(links, lists) && lists == AppendedTo(old(lists), b, s)
      ensures links.nFree == old(links.nFree)
      ensures evictable == old(evictable)[s := true]
    {
      AppendedOk(links, lists, b, s);
      ghost var before := links;
      if links.first[b] == -1 {
        links := links.(first := links.first[b := s]);
      } else {
        links := links.(next := links.next[links.last[b] := s]);
      }
      links := links.(prev := links.prev[s := links.last[b]]);
      links := links.(last := links.last[b := s], nSeg := links.nSeg[b := links.nSeg[b] + 1]);
      assert links == Appended(before, b, s);
      evictable := evictable[s := true];
      lists := AppendedTo(lists, b, s);
    }

    /** A new segment goes to the end of bucket b's list, and takes the bucket's ttl. */
    method LinkFresh(b: nat, s: nat)
      requires QuietBut(s) && s < n && b < N_BUCKET && Used(b)
      requires createAt[s] == now && accessible[s] && links.next[s] == -1
      modifies `links, `lists, `evictable, `ttl
      ensures Quiet() && lists == AppendedTo(old(lists), b, s) && links.nFree == old(links.nFree)
      ensures ttl == old(ttl)[s := BucketTtl(b)] && Shaped()
    {
      hide ListsOk, SegTiled, SortedAlong;
      ghost var q := lists;
      ChainLinked(links, q, b);
      ttl := ttl[s := BucketTtl(b)];
      LinkLast(b, s);
      forall c | 0 <= c < N_BUCKET ensures SortedAlong(createAt, lists.chains[c]) {
        assert SortedAlong(createAt, q.chains[c]);
        if c == b {
          SortedAppend(createAt, q.chains[b], s);
        }
      }
    }

    /** The lists are in order, and free segments hold nothing. */
    ghost predicate Spare()
      reads this
    {
      Shaped() && ListsOk(links, lists) && forall s :: 0 <= s < n && lists.owner[s] == FREE ==> ends[s] == 0
    }

    /** Take a free segment, of which there are some beside the reserve, and reset it. */
    method TakeNew() returns (s: nat)
      requires Spare() && links.nFree > nReserved
      modifies `links, `lists, `writeOffset, `liveBytes, `nLive, `createAt, `accessible, `ends
      ensures Spare() && links.nFree == old(links.nFree) - 1 && s < n && links.next[s] == -1
      ensures old(lists.free) != [] && s == old(lists.free)[0] && old(lists.owner[s]) == FREE && old(ends[s]) == 0
      ensures lists == TakenFrom(old(lists))
      ensures writeOffset == old(writeOffset)[s := 0] && ends == old(ends)[s := 0]
      ensures liveBytes == old(liveBytes)[s := 0] && nLive == old(nLive)[s := 0]
      ensures createAt == old(createAt)[s := now] && accessible == old(accessible)[s := true]
    {
      hide ListsOk;
      s := SegGetFromFreepool(false);
      SegInit(s);
    }

    /** Link a free segment behind those of bucket b, and move its offset on by sz bytes. */
    method LinkFree(b: nat, sz: nat) returns (s: nat)
      requires Spare() && b < N_BUCKET && links.nFree > nReserved
      modifies `links, `lists, `writeOffset, `liveBytes, `nLive, `createAt, `accessible, `ends, `ttl, `evictable
      ensures Spare() && links.nFree == old(links.nFree) - 1
      ensures old(lists.free) != [] && s == old(lists.free)[0] < n && old(lists.owner[s]) == FREE && old(ends[s]) == 0
      ensures lists == AppendedTo(TakenFrom(old(lists)), b, s)
      ensures writeOffset == old(writeOffset)[s := sz] && ends == old(ends)[s := 0]
      ensures liveBytes == old(liveBytes)[s := 0] && nLive == old(nLive)[s := 0]
      ensures createAt == old(createAt)[s := now] && ttl == old(ttl)[s := BucketTtl(b)]
      ensures accessible == old(accessible)[s := true]
    {
      hide ListsOk, BucketTtl;
      s := TakeNew();
      LinkLast(b, s);
      ttl := ttl[s := BucketTtl(b)];
      writeOffset := writeOffset[s := writeOffset[s] + sz];
    }

    /** A held segment takes over the place of another one, which is then held. */
    method ReplaceSegInChain(s: nat, o: nat, ghost i: nat)
      requires Shaped() && ListsOk(links, lists) && TtlOk() && s < n && lists.owner[s] == HELD
      requires o < n && lists.owner[o] >= 0
      requires i < |lists.chains[lists.owner[o]]| - 1 && lists.chains[lists.owner[o]][i] == o
      requires ttl[s] == ttl[o]
      modifies `links, `lists
      ensures Shaped() && ListsOk(links, lists) && TtlOk()
      ensures lists == ReplacedAt(old(lists), old(lists.owner[o]), i, s)
      ensures links.nFree == old(links.nFree)
    {
      ReplacedOk(links, lists, lists.owner[o], i, s);
      OwnTtlFindsBucket(lists.owner[o]);
      ghost var before := links;
      var b := FindIdx(ttl[o]);
      var p, nx := links.prev[o], links.next[o];
      if p == -1 {
        links := links.(first := links.first[b := s]);
      } else {
        links := links.(next := links.next[p := s]);
      }
      links := links.(prev := links.prev[nx := s]);
      links := links.(prev := links.prev[s := p], next := links.next[s := nx]);
      assert links == Replaced(before, b, o, s);
      lists := ReplacedAt(lists, b, i, s);
    }

    /** A fresh segment to merge into, with the age and ttl of segment o. */
    method TakeForMerge(o: nat) returns (s: nat)
      requires Inv() && o < n && lists.owner[o] >= 0 && links.nFree > 0
      modifies `links, `lists, `writeOffset, `liveBytes, `nLive, `createAt, `ttl, `accessible, `ends
      ensures Inv() && s < n && old(lists.owner[s]) == FREE
      ensures lists == TakenFrom(old(lists)) && lists.owner == old(lists.owner)[s := HELD]
      ensures links.nFree == old(links.nFree) - 1
      ensures createAt[s] == old(createAt[o]) && ttl[s] == old(ttl[o])
      ensures createAt == old(createAt)[s := createAt[s]] && ttl == old(ttl)[s := ttl[s]]
      ensures accessible == old(accessible)[s := true] && writeOffset == old(writeOffset)[s := 0]
      ensures nLive == old(nLive)[s := 0] && liveBytes == old(liveBytes)[s := 0] && ends == old(ends)[s := 0]
    {
      hide ListsOk, SegTiled, SortedAlong, Linked;
      var r := SegGetFromFreepool(true);
      s := r;
      ghost var at := createAt;
      SegInit(s);
      createAt := createAt[s := createAt[o]];
      ttl := ttl[s := ttl[o]];
      assert createAt == at[s := at[o]];
      forall b | 0 <= b < N_BUCKET ensures SortedAlong(createAt, lists.chains[b]) {
        assert SortedAlong(at, lists.chains[b]);
        ChainLinked(links, lists, b);
        SortedSame(at, createAt, lists.chains[b]);
      }
      TiledNone(cells[s], segSize);
    }

    /** The merged segment takes over the place of the first one merged, which is then held. */
    method SwapIn(s: nat, o: nat, ghost i: nat)
      requires Inv() && s < n && lists.owner[s] == HELD && accessible[s] && !evictable[s]
      requires o < n && lists.owner[o] >= 0 && !evictable[o]
      requires i < |lists.chains[lists.owner[o]]| - 1 && lists.chains[lists.owner[o]][i] == o
      requires ttl[s] == ttl[o] && createAt[s] == createAt[o]
      modifies `links, `lists, `accessible
      ensures Inv() && lists == ReplacedAt(old(lists), old(lists.owner[o]), i, s)
      ensures links.nFree == old(links.nFree) && accessible == old(accessible)[o := false]
    {
      hide ListsOk, SegTiled, SortedAlong, Linked;
      accessible := accessible[o := false];
      SortedReplace(createAt, lists.chains[lists.owner[o]], i, s);
      ReplaceSegInChain(s, o, i);
    }

    /** A segment that was copied goes back to the free pool. */
    method Release(s: nat, ghost i: nat)
      requires Inv() && s < n && lists.owner[s] >= 0 && !evictable[s]
      requires i < |lists.chains[lists.owner[s]]| && lists.chains[lists.owner[s]][i] == s
      modifies `links, `lists, `accessible, `writeOffset, `liveBytes, `ends
      ensures Inv() && lists == FreedTo(RemovedAt(old(lists), old(lists.owner[s]), i), s)
      ensures links.nFree == old(links.nFree) + 1
      ensures accessible == old(accessible)[s := false] && writeOffset == old(writeOffset)[s := 0]
      ensures liveBytes == old(liveBytes)[s := 0] && ends == old(ends)[s := 0]
    {
      hide ListsOk, SegTiled, SortedAlong, Linked;
      Detach(s, i);
      FreeHeld(s);
    }

    /** A segment that was held, and is locked, goes back to the free pool. */
    method FreeHeld(s: nat)
      requires Inv() && s < n && lists.owner[s] == HELD && !evictable[s]
      modifies `links, `lists, `accessible, `writeOffset, `liveBytes, `ends
      ensures Inv() && lists == FreedTo(old(lists), s) && links.nFree == old(links.nFree) + 1
      ensures accessible == old(accessible)[s := false] && writeOffset == old(writeOffset)[s := 0]
      ensures liveBytes == old(liveBytes)[s := 0] && ends == old(ends)[s := 0]
    {
      hide ListsOk, SegTiled, SortedAlong, Linked;
      TiledNone(cells[s], segSize);
      SegAddToFreepool(s);
    }

    /** Open for readers and writers: not being removed, not expired, not flushed. */
    predicate SegIsAccessible(s: nat)
      requires s < |accessible| && s < |ttl| && s < |createAt|
      reads `accessible, `ttl, `createAt, `now, `flushAt
    {
      accessible[s] && ttl[s] + createAt[s] > now && createAt[s] > flushAt
    }

    /** Past its ttl, with two seconds' grace for slow writers, or older than the last flush. */
    predicate Expired(s: nat)
      requires s < |createAt| && s < |ttl|
      reads `createAt, `ttl, `now, `flushAt
    {
      createAt[s] + ttl[s] < now - 2 || createAt[s] < flushAt
    }

    function ExpiredNow(): (dead: seq<bool>)
      requires |createAt| == |ttl| == n
      reads `createAt, `ttl, `now, `flushAt
      ensures |dead| == n && forall s :: 0 <= s < n ==> dead[s] == Expired(s)
    {
      Deads(createAt, ttl, now, flushAt)
    }

    /** No writer, not the tail of its list, old enough, and not about to expire. */
    predicate SegEvictable(s: int)
      requires Shaped()
      reads this
    {
      0 <= s < n && wref[s] == 0 && evictable[s] && links.next[s] != -1 &&
      now - createAt[s] >= matureTime && createAt[s] + ttl[s] - now > 20
    }

    /** The same, whatever age segments are evicted from. */
    predicate Movable(s: int)
      requires Shaped()
      reads this
    {
      0 <= s < n && wref[s] == 0 && evictable[s] && links.next[s] != -1 && createAt[s] + ttl[s] - now > 20
    }

    /** What the search for segments to merge looks at. */
    ghost function Site(): (st: Site)
      reads `links, `lists, `wref, `evictable, `createAt, `ttl, `now
    {
      SegScan.Site(links, lists, wref, evictable, createAt, ttl, now)
    }

    function Evictables(): (ok: seq<bool>)
      requires Shaped()
      reads this
      ensures |ok| == n && forall s :: 0 <= s < n ==> ok[s] == SegEvictable(s)
    {
      seq(n, s requires 0 <= s < n && Shaped() reads this => SegEvictable(s))
    }
  }

  /** Following the links from position i spells the rest of the list. */
  lemma NextIs(prev: seq<int>, next: seq<int>, q: seq<int>, i: nat)
    requires Linked(prev, next, q) && i < |q|
    ensures |prev| == |next| && 0 <= q[i] < |next| && next[q[i]] == At(q, i + 1)
    ensures i + 1 < |q| ==> 0 <= q[i + 1] < |next| && next[q[i + 1]] == At(q, i + 2)
    ensures i + 2 < |q| ==> 0 <= q[i + 2] < |next| && next[q[i + 2]] == At(q, i + 3)
  {
    assert next[q[i]] == After(q, i);
    if i + 1 < |q| {
      assert next[q[i + 1]] == After(q, i + 1);
    }
    if i + 2 < |q| {
      assert next[q[i + 2]] == After(q, i + 2);
    }
  }

  /**
   * The search for three evictable segments in a row, from start on. It looks at the third
   * segment first and skips past whichever of the three is not evictable, so it advances by
   * up to three; it finds what a plain scan finds.
   */
  method FindThree(next: seq<int>, ok: seq<bool>, start: nat, ghost prev: seq<int>, ghost q: seq<int>, ghost p: nat)
    returns (r: int)
    requires Linked(prev, next, q) && |ok| == |next|
    requires p < |q| && q[p] == start
    ensures r == At(q, FirstThree(q, ok, p))
  {
    var seg: int := start;
    var n1 := next[seg];
    NextIs(prev, next, q, p);
    var n2 := if n1 == -1 then -1 else next[n1];
    ghost var m := p;
    while seg != -1 && n1 != -1 && n2 != -1
      invariant p <= m <= |q|
      invariant seg == At(q, m) && n1 == At(q, m + 1) && n2 == At(q, m + 2)
      invariant forall i :: p <= i < m ==> !ThreeAt(q, ok, i)
      decreases |q| - m
    {
      NextIs(prev, next, q, m + 2);
      if !ok[n2] {
        seg := next[n2];
        n1 := if seg == -1 then -1 else next[seg];
        n2 := if n1 == -1 then -1 else next[n1];
        m := m + 3;
      } else if !ok[n1] {
        seg := n2;
        n1 := next[n2];
        n2 := if n1 == -1 then -1 else next[n1];
        m := m + 2;
      } else if !ok[seg] {
        seg := n1;
        n1 := n2;
        n2 := next[n2];
        m := m + 1;
      } else {
        FirstThreeIs(q, ok, p, m);
        return seg;
      }
    }
    FirstThreeIs(q, ok, p, |q|);
    return -1;
  }

  /**
   * Lock the segments from start on, as long as they may be evicted, at most max of them.
   * Locking one does not matter to the others, so `ok` may be taken beforehand.
   */
  method LockRun(next: seq<int>, ok: seq<bool>, evictable: seq<bool>, start: nat, max: nat,
                 ghost prev: seq<int>, ghost q: seq<int>, ghost p: nat)
    returns (qs: seq<int>, locked: seq<bool>)
    requires Linked(prev, next, q) && |ok| == |evictable| == |next|
    requires forall s :: 0 <= s < |ok| && ok[s] ==> next[s] != -1
    requires p < |q| && q[p] == start < |ok| && ok[start] && max > 0
    ensures 0 < |qs| <= max && p + |qs| < |q| && qs == q[p..p + |qs|] && |qs| == RunLength(q, ok, p, max)
    ensures |locked| == |evictable|
    ensures forall t :: 0 <= t < |ok| ==> locked[t] == (evictable[t] && t !in qs)
    ensures forall t :: t in qs ==> 0 <= t < |ok| && ok[t]
  {
    hide Linked;
    qs, locked := [], evictable;
    var curr: int := start;
    ghost var i := p;
    while |qs| < max && curr != -1 && ok[curr]
      invariant p <= i <= |q| && qs == q[p..i] && curr == At(q, i) && |qs| <= max
      invariant curr != -1 ==> 0 <= curr < |ok|
      invariant |locked| == |evictable|
      invariant forall t :: 0 <= t < |ok| ==> locked[t] == (evictable[t] && t !in qs)
      invariant forall t :: t in qs ==> 0 <= t < |ok| && ok[t]
      invariant i < |q|
      invariant qs == [] ==> curr == start
      decreases max - |qs|
    {
      NextIs(prev, next, q, i);
      locked := locked[curr := false];
      assert q[p..i + 1] == q[p..i] + [q[i]];
      qs := qs + [curr];
      curr := next[curr];
      i := i + 1;
    }
    forall k | p <= k < i ensures 0 <= q[k] < |ok| && ok[q[k]] {
      assert q[k] == qs[k - p] && qs[k - p] in qs;
    }
    RunLengthIs(q, ok, p, max, i - p);
  }

  lemma TiledNone(c: Cells, segSize: nat)
    ensures SegTiled(c, segSize, 0, 0)
  {
  }
}
