/**
 * One bucket chain of the hash index, as the sequence of its item slots in scan order.
 *
 * A chain of k buckets has 7k item slots: the head bucket gives its first slot to the
 * bucket info, and every bucket but the last gives its last slot to the link. So slot i
 * of bucket b comes at position 7b + i - 1 of the scan.
 *
 * The index stores no keys. A slot holds a tag and the location of an item, and a
 * lookup reads the key from the segment memory `mem`. Several slots of a chain may hold
 * items of one key; which of them is current is decided by the scan order alone.
 */
module SegIndex {
  import opened Basics
  import opened SegItems

  datatype Loc = Loc(seg: nat, off: nat)

  /** `Stat` and `Link` stand for the bucket info and the link to the next bucket. */
  datatype Slot = Empty | Entry(tag: nat, freq: nat, loc: Loc) | Stat | Link

  type Chain = seq<Slot>

  predicate InMem(mem: seq<Cells>, l: Loc) {
    l.seg < |mem| && HasItem(mem[l.seg], l.off)
  }

  function ItemAt(mem: seq<Cells>, l: Loc): Item
    requires InMem(mem, l)
  {
    mem[l.seg][l.off].item
  }

  predicate SlotBacked(mem: seq<Cells>, x: Slot) {
    x.Entry? ==> InMem(mem, x.loc)
  }

  /** Every slot in use names a place where an item was written. */
  ghost predicate Backed(mem: seq<Cells>, c: Chain) {
    forall i :: 0 <= i < |c| ==> SlotBacked(mem, c[i])
  }

  /** The tag agrees and the key found in memory is the one looked for. */
  predicate Hit(mem: seq<Cells>, key: Key, tag: nat, x: Slot)
    requires SlotBacked(mem, x)
  {
    x.Entry? && x.tag == tag && ItemAt(mem, x.loc).key == key
  }

  /** The first slot from i on that hits, or the length of the chain. */
  ghost function FirstHitFrom(mem: seq<Cells>, key: Key, tag: nat, c: Chain, i: nat): (r: nat)
    requires Backed(mem, c) && i <= |c|
    ensures i <= r <= |c|
    ensures forall j :: i <= j < r ==> !Hit(mem, key, tag, c[j])
    ensures r < |c| ==> Hit(mem, key, tag, c[r])
    decreases |c| - i
  {
    if i == |c| || Hit(mem, key, tag, c[i]) then i else FirstHitFrom(mem, key, tag, c, i + 1)
  }

  /** Where a lookup of the key ends up. */
  ghost function Find(mem: seq<Cells>, key: Key, tag: nat, c: Chain): (r: Option<Loc>)
    requires Backed(mem, c)
    ensures r.Some? ==> InMem(mem, r.value) && ItemAt(mem, r.value).key == key
    ensures r.None? <==> forall j :: 0 <= j < |c| ==> !Hit(mem, key, tag, c[j])
  {
    var f := FirstHitFrom(mem, key, tag, c, 0);
    if f == |c| then None else Some(c[f].loc)
  }

  lemma FindAt(mem: seq<Cells>, key: Key, tag: nat, c: Chain, f: nat)
    requires Backed(mem, c) && f <= |c|
    requires forall j :: 0 <= j < f ==> !Hit(mem, key, tag, c[j])
    requires f < |c| ==> Hit(mem, key, tag, c[f])
    ensures FirstHitFrom(mem, key, tag, c, 0) == f
    ensures Find(mem, key, tag, c) == if f == |c| then None else Some(c[f].loc)
  {
  }

  /** Slots that hit the key in neither chain do not influence its lookup. */
  lemma FindUnaffected(mem: seq<Cells>, key: Key, tag: nat, c: Chain, c': Chain)
    requires Backed(mem, c) && Backed(mem, c') && |c| <= |c'|
    requires forall i :: 0 <= i < |c| ==>
               || c'[i] == c[i]
               || (!Hit(mem, key, tag, c[i]) && !Hit(mem, key, tag, c'[i]))
    requires forall i :: |c| <= i < |c'| ==> !Hit(mem, key, tag, c'[i])
    ensures Find(mem, key, tag, c') == Find(mem, key, tag, c)
  {
    var f := FirstHitFrom(mem, key, tag, c, 0);
    FindAt(mem, key, tag, c', if f < |c| then f else |c'|);
  }

  /** Lookups see memory only through the items of the slots in use. */
  lemma FindSameItems(mem: seq<Cells>, mem': seq<Cells>, key: Key, tag: nat, c: Chain)
    requires Backed(mem, c) && Backed(mem', c)
    requires forall i :: 0 <= i < |c| && c[i].Entry? ==> ItemAt(mem', c[i].loc) == ItemAt(mem, c[i].loc)
    ensures Find(mem', key, tag, c) == Find(mem, key, tag, c)
  {
    FindAt(mem', key, tag, c, FirstHitFrom(mem, key, tag, c, 0));
  }

  // ---------------------------------------------------------------------------
  // What the operations make of a chain
  // ---------------------------------------------------------------------------

  /** The hits of positions [from, to) emptied. */
  ghost function Wipe(mem: seq<Cells>, key: Key, tag: nat, c: Chain, from: nat, to: nat): (r: Chain)
    requires Backed(mem, c) && to <= |c|
    ensures |r| == |c| && Backed(mem, r)
    ensures forall i :: 0 <= i < |c| ==>
              r[i] == if from <= i < to && Hit(mem, key, tag, c[i]) then Empty else c[i]
  {
    seq(|c|, i requires 0 <= i < |c| =>
      if from <= i < to && Hit(mem, key, tag, c[i]) then Empty else c[i])
  }

  lemma WipeStep(mem: seq<Cells>, key: Key, tag: nat, c: Chain, from: nat, j: nat)
    requires Backed(mem, c) && j < |c|
    ensures Wipe(mem, key, tag, c, from, j)[j] == c[j]
    ensures Wipe(mem, key, tag, c, from, j + 1)
         == if from <= j && Hit(mem, key, tag, c[j]) then Wipe(mem, key, tag, c, from, j)[j := Empty]
            else Wipe(mem, key, tag, c, from, j)
  {
  }

  ghost function Deleted(mem: seq<Cells>, key: Key, tag: nat, c: Chain): (r: Chain)
    requires Backed(mem, c)
  {
    Wipe(mem, key, tag, c, 0, |c|)
  }

  /** Evicting the item at l: stale entries of its key go too, a newer entry stays. */
  ghost function Evicted(mem: seq<Cells>, key: Key, tag: nat, c: Chain, l: Loc): (r: Chain)
    requires Backed(mem, c)
  {
    var f := FirstHitFrom(mem, key, tag, c, 0);
    if f < |c| && c[f].loc == l then Wipe(mem, key, tag, c, 0, |c|)
    else if f < |c| then Wipe(mem, key, tag, c, f + 1, |c|)
    else c
  }

  /** The eviction after j slots, where f is the first hit. */
  ghost function EvictedTo(mem: seq<Cells>, key: Key, tag: nat, c: Chain, l: Loc, f: nat, j: nat): (r: Chain)
    requires Backed(mem, c) && j <= |c| && f == FirstHitFrom(mem, key, tag, c, 0)
    ensures |r| == |c| && Backed(mem, r)
  {
    Wipe(mem, key, tag, c, if f < |c| && c[f].loc == l then f else f + 1, j)
  }

  lemma EvictedStep(mem: seq<Cells>, key: Key, tag: nat, c: Chain, l: Loc, f: nat, j: nat)
    requires Backed(mem, c) && j < |c| && f == FirstHitFrom(mem, key, tag, c, 0)
    ensures EvictedTo(mem, key, tag, c, l, f, j)[j] == c[j]
    ensures Hit(mem, key, tag, c[j]) ==> j >= f
    ensures j == f ==> Hit(mem, key, tag, c[j])
    ensures EvictedTo(mem, key, tag, c, l, f, j + 1)
         == if Hit(mem, key, tag, c[j]) && (j > f || c[j].loc == l)
            then EvictedTo(mem, key, tag, c, l, f, j)[j := Empty]
            else EvictedTo(mem, key, tag, c, l, f, j)
  {
  }

  lemma EvictedEnds(mem: seq<Cells>, key: Key, tag: nat, c: Chain, l: Loc, f: nat)
    requires Backed(mem, c) && f == FirstHitFrom(mem, key, tag, c, 0)
    ensures EvictedTo(mem, key, tag, c, l, f, 0) == c
    ensures EvictedTo(mem, key, tag, c, l, f, |c|) == Evicted(mem, key, tag, c, l)
  {
  }

  /** The item at l has moved to l': its entry follows if it is current. */
  ghost function Relinked(mem: seq<Cells>, key: Key, tag: nat, c: Chain, l: Loc, l': Loc): (r: Chain)
    requires Backed(mem, c)
  {
    var f := FirstHitFrom(mem, key, tag, c, 0);
    if f == |c| then c
    else if c[f].loc == l then Wipe(mem, key, tag, c, f + 1, |c|)[f := Entry(tag, 0, l')]
    else Wipe(mem, key, tag, c, f + 1, |c|)
  }

  /** The relink after j slots, where f is the first hit. */
  ghost function RelinkedTo(mem: seq<Cells>, key: Key, tag: nat, c: Chain, l: Loc, l': Loc, f: nat, j: nat): (r: Chain)
    requires Backed(mem, c) && j <= |c| && f == FirstHitFrom(mem, key, tag, c, 0) && InMem(mem, l')
    ensures |r| == |c| && Backed(mem, r)
  {
    var w := Wipe(mem, key, tag, c, f + 1, j);
    if f < j && c[f].loc == l then w[f := Entry(tag, 0, l')] else w
  }

  lemma RelinkedStep(mem: seq<Cells>, key: Key, tag: nat, c: Chain, l: Loc, l': Loc, f: nat, j: nat)
    requires Backed(mem, c) && j < |c| && f == FirstHitFrom(mem, key, tag, c, 0) && InMem(mem, l')
    ensures RelinkedTo(mem, key, tag, c, l, l', f, j)[j] == c[j]
    ensures Hit(mem, key, tag, c[j]) ==> j >= f
    ensures j == f ==> Hit(mem, key, tag, c[j])
    ensures RelinkedTo(mem, key, tag, c, l, l', f, j + 1)
         == if Hit(mem, key, tag, c[j]) && j > f then RelinkedTo(mem, key, tag, c, l, l', f, j)[j := Empty]
            else if Hit(mem, key, tag, c[j]) && c[j].loc == l
            then RelinkedTo(mem, key, tag, c, l, l', f, j)[j := Entry(tag, 0, l')]
            else RelinkedTo(mem, key, tag, c, l, l', f, j)
  {
    WipeStep(mem, key, tag, c, f + 1, j);
  }

  lemma RelinkedEnds(mem: seq<Cells>, key: Key, tag: nat, c: Chain, l: Loc, l': Loc, f: nat)
    requires Backed(mem, c) && f == FirstHitFrom(mem, key, tag, c, 0) && InMem(mem, l')
    ensures RelinkedTo(mem, key, tag, c, l, l', f, 0) == c
    ensures RelinkedTo(mem, key, tag, c, l, l', f, |c|) == Relinked(mem, key, tag, c, l, l')
    ensures Find(mem, key, tag, c) == Some(l) <==> f < |c| && c[f].loc == l
  {
  }

  /** The bucket that position j of a chain of k buckets lies in, and where that bucket ends. */
  function BucketOf(j: nat, k: nat): nat
    requires k > 0
  {
    if (j + 1) / 7 < k then (j + 1) / 7 else k - 1
  }

  function BucketEnd(b: nat, k: nat): nat
    requires b < k
  {
    if b == k - 1 then 7 * k else 7 * b + 6
  }

  /** The first position from i on that is empty or hits. */
  ghost function FirstSpotFrom(mem: seq<Cells>, key: Key, tag: nat, c: Chain, i: nat): (r: nat)
    requires Backed(mem, c) && i <= |c|
    ensures i <= r <= |c|
    ensures forall j :: i <= j < r ==> !c[j].Empty? && !Hit(mem, key, tag, c[j])
    ensures r < |c| ==> c[r].Empty? || Hit(mem, key, tag, c[r])
    decreases |c| - i
  {
    if i == |c| || c[i].Empty? || Hit(mem, key, tag, c[i]) then i
    else FirstSpotFrom(mem, key, tag, c, i + 1)
  }

  /**
   * Inserting the item at l: into the first slot that is free or holds the key. Taking a
   * free slot removes an older entry only if one follows within the same bucket. A full
   * chain without the key grows by one bucket.
   */
  ghost function Inserted(mem: seq<Cells>, key: Key, tag: nat, c: Chain, l: Loc): (r: Chain)
    requires Backed(mem, c) && |c| % 7 == 0 && |c| > 0
  {
    var p := FirstSpotFrom(mem, key, tag, c, 0);
    var x := Entry(tag, 0, l);
    if p == |c| then c + [x, Empty, Empty, Empty, Empty, Empty, Empty]
    else if c[p].Empty? then
      var q := FirstHitFrom(mem, key, tag, c, p);
      if q < BucketEnd(BucketOf(p, |c| / 7), |c| / 7) && q < |c| then c[p := x][q := Empty] else c[p := x]
    else c[p := x]
  }

  /** The insert, told from the first spot p and the first hit q from there on. */
  lemma InsertedIs(mem: seq<Cells>, key: Key, tag: nat, c: Chain, l: Loc, p: nat, q: nat)
    requires Backed(mem, c) && |c| % 7 == 0 && 0 < |c| && p <= q <= |c|
    requires forall j :: 0 <= j < p ==> !c[j].Empty? && !Hit(mem, key, tag, c[j])
    requires forall j :: p <= j < q ==> !Hit(mem, key, tag, c[j])
    requires p < |c| ==> c[p].Empty? || Hit(mem, key, tag, c[p])
    requires p < |c| && c[p].Empty? ==>
               || (q < |c| && Hit(mem, key, tag, c[q]))
               || q == BucketEnd(BucketOf(p, |c| / 7), |c| / 7)
    ensures Inserted(mem, key, tag, c, l)
         == if p == |c| then c + [Entry(tag, 0, l), Empty, Empty, Empty, Empty, Empty, Empty]
            else if c[p].Empty? && q < BucketEnd(BucketOf(p, |c| / 7), |c| / 7)
            then c[p := Entry(tag, 0, l)][q := Empty]
            else c[p := Entry(tag, 0, l)]
  {
    assert FirstSpotFrom(mem, key, tag, c, 0) == p;
  }

  // ---------------------------------------------------------------------------
  // What the operations mean for lookups
  // ---------------------------------------------------------------------------

  /** After a delete the key is gone, every stale entry of it included. */
  lemma DeletedFind(mem: seq<Cells>, key: Key, tag: nat, c: Chain, key': Key, tag': nat)
    requires Backed(mem, c)
    ensures Find(mem, key, tag, Deleted(mem, key, tag, c)) == None
    ensures key' != key ==> Find(mem, key', tag', Deleted(mem, key, tag, c)) == Find(mem, key', tag', c)
  {
    var r := Deleted(mem, key, tag, c);
    if key' != key {
      FindUnaffected(mem, key', tag', c, r);
    }
  }

  /** Eviction takes the key away only if the evicted item was its current one; it never uncovers an older one. */
  lemma EvictedFind(mem: seq<Cells>, key: Key, tag: nat, c: Chain, l: Loc, key': Key, tag': nat)
    requires Backed(mem, c)
    ensures Find(mem, key, tag, Evicted(mem, key, tag, c, l))
         == if Find(mem, key, tag, c) == Some(l) then None else Find(mem, key, tag, c)
    ensures key' != key ==> Find(mem, key', tag', Evicted(mem, key, tag, c, l)) == Find(mem, key', tag', c)
    ensures forall i :: 0 <= i < |c| && Hit(mem, key, tag, c[i]) ==>
              !(Evicted(mem, key, tag, c, l)[i].Entry? && Evicted(mem, key, tag, c, l)[i].loc == l)
  {
    var r := Evicted(mem, key, tag, c, l);
    var f := FirstHitFrom(mem, key, tag, c, 0);
    if f < |c| && c[f].loc != l {
      FindAt(mem, key, tag, r, f);
    }
    if key' != key {
      FindUnaffected(mem, key', tag', c, r);
    }
  }

  /** A relink moves the lookup from l to l' and changes no other. */
  lemma RelinkedFind(mem: seq<Cells>, key: Key, tag: nat, c: Chain, l: Loc, l': Loc, key': Key, tag': nat)
    requires Backed(mem, c) && InMem(mem, l') && ItemAt(mem, l').key == key
    ensures Backed(mem, Relinked(mem, key, tag, c, l, l'))
    ensures Find(mem, key, tag, Relinked(mem, key, tag, c, l, l'))
         == if Find(mem, key, tag, c) == Some(l) then Some(l') else Find(mem, key, tag, c)
    ensures key' != key ==> Find(mem, key', tag', Relinked(mem, key, tag, c, l, l')) == Find(mem, key', tag', c)
  {
    var r := Relinked(mem, key, tag, c, l, l');
    var f := FirstHitFrom(mem, key, tag, c, 0);
    if f < |c| {
      FindAt(mem, key, tag, r, f);
    }
    if key' != key {
      FindUnaffected(mem, key', tag', c, r);
    }
  }

  /** After an insert the key is found at the new place, before any stale entry. */
  lemma InsertedFind(mem: seq<Cells>, key: Key, tag: nat, c: Chain, l: Loc, key': Key, tag': nat)
    requires Backed(mem, c) && |c| % 7 == 0 && |c| > 0 && InMem(mem, l) && ItemAt(mem, l).key == key
    ensures Backed(mem, Inserted(mem, key, tag, c, l))
    ensures Find(mem, key, tag, Inserted(mem, key, tag, c, l)) == Some(l)
    ensures key' != key ==> Find(mem, key', tag', Inserted(mem, key, tag, c, l)) == Find(mem, key', tag', c)
  {
    var r := Inserted(mem, key, tag, c, l);
    var p := FirstSpotFrom(mem, key, tag, c, 0);
    FindAt(mem, key, tag, r, p);
    if key' != key {
      FindUnaffected(mem, key', tag', c, r);
    }
  }

  /** The same chain up to frequencies. */
  ghost predicate SameButFreq(c: Chain, c': Chain) {
    && |c'| == |c|
    && forall i :: 0 <= i < |c| ==>
         c'[i] == c[i] || (c[i].Entry? && c'[i].Entry? && c'[i].tag == c[i].tag && c'[i].loc == c[i].loc)
  }

  lemma FindSameButFreq(mem: seq<Cells>, key: Key, tag: nat, c: Chain, c': Chain)
    requires Backed(mem, c) && SameButFreq(c, c')
    ensures Backed(mem, c') && Find(mem, key, tag, c') == Find(mem, key, tag, c)
  {
    FindAt(mem, key, tag, c', FirstHitFrom(mem, key, tag, c, 0));
  }

  /** No two slots of a chain share an item. */
  ghost predicate Distinct(c: Chain) {
    forall i, j :: 0 <= i < j < |c| && c[i].Entry? && c[j].Entry? ==> c[i].loc != c[j].loc
  }

  /** The items that lost their slot on the way from c to c'. */
  ghost function Dropped(c: Chain, c': Chain): set<Loc>
    requires |c| <= |c'|
  {
    set i | 0 <= i < |c| && c[i].Entry? && c'[i] != c[i] :: c[i].loc
  }

  // ---------------------------------------------------------------------------
  // How many items, and how many bytes, of a segment a chain refers to
  // ---------------------------------------------------------------------------

  function Weight(mem: seq<Cells>, x: Slot, s: nat, unit: bool): nat
    requires SlotBacked(mem, x)
  {
    if x.Entry? && x.loc.seg == s then (if unit then 1 else ItemSize(ItemAt(mem, x.loc))) else 0
  }

  /** With `unit`, the number of slots that refer to segment s; without, their items' bytes. */
  ghost function Load(mem: seq<Cells>, c: Chain, s: nat, unit: bool): nat
    requires Backed(mem, c)
  {
    if c == [] then 0
    else Load(mem, c[..|c| - 1], s, unit) + Weight(mem, c[|c| - 1], s, unit)
  }

  lemma {:induction false} LoadUpdate(mem: seq<Cells>, c: Chain, i: nat, x: Slot, s: nat, unit: bool)
    requires Backed(mem, c) && i < |c| && SlotBacked(mem, x)
    ensures Backed(mem, c[i := x])
    ensures Load(mem, c[i := x], s, unit)
         == Load(mem, c, s, unit) - Weight(mem, c[i], s, unit) + Weight(mem, x, s, unit)
  {
    var n := |c| - 1;
    if i == n {
      assert c[i := x][..n] == c[..n];
    } else {
      LoadUpdate(mem, c[..n], i, x, s, unit);
      assert c[i := x][..n] == c[..n][i := x];
    }
  }

  lemma {:induction false} LoadConcat(mem: seq<Cells>, c: Chain, d: Chain, s: nat, unit: bool)
    requires Backed(mem, c) && Backed(mem, d)
    ensures Backed(mem, c + d)
    ensures Load(mem, c + d, s, unit) == Load(mem, c, s, unit) + Load(mem, d, s, unit)
  {
    if d == [] {
      assert c + d == c;
    } else {
      var n := |d| - 1;
      LoadConcat(mem, c, d[..n], s, unit);
      assert (c + d)[..|c| + n] == c + d[..n];
    }
  }

  lemma {:induction false} LoadSome(mem: seq<Cells>, c: Chain, i: nat, s: nat, unit: bool)
    requires Backed(mem, c) && i < |c|
    ensures Load(mem, c, s, unit) >= Weight(mem, c[i], s, unit)
  {
    if i < |c| - 1 {
      LoadSome(mem, c[..|c| - 1], i, s, unit);
    }
  }

  lemma {:induction false} LoadNone(mem: seq<Cells>, c: Chain, s: nat, unit: bool)
    requires Backed(mem, c)
    requires forall i :: 0 <= i < |c| && c[i].Entry? ==> c[i].loc.seg != s
    ensures Load(mem, c, s, unit) == 0
  {
    if c != [] {
      LoadNone(mem, c[..|c| - 1], s, unit);
    }
  }

  lemma {:induction false} LoadSameButFreq(mem: seq<Cells>, c: Chain, c': Chain, s: nat, unit: bool)
    requires Backed(mem, c) && Backed(mem, c') && SameButFreq(c, c')
    ensures Load(mem, c', s, unit) == Load(mem, c, s, unit)
  {
    if c != [] {
      LoadSameButFreq(mem, c[..|c| - 1], c'[..|c| - 1], s, unit);
    }
  }

  lemma {:induction false} LoadSameItems(mem: seq<Cells>, mem': seq<Cells>, c: Chain, s: nat, unit: bool)
    requires Backed(mem, c) && Backed(mem', c)
    requires forall i :: 0 <= i < |c| && c[i].Entry? ==> ItemAt(mem', c[i].loc) == ItemAt(mem, c[i].loc)
    ensures Load(mem', c, s, unit) == Load(mem, c, s, unit)
  {
    if c != [] {
      LoadSameItems(mem, mem', c[..|c| - 1], s, unit);
    }
  }

  /**
   * Segment counters moved together with the chain: for every segment the difference
   * between its counter and what the chain accounts for is as before.
   */
  ghost predicate Balanced(mem: seq<Cells>, c: Chain, live: seq<int>, bytes: seq<int>,
                           c': Chain, live': seq<int>, bytes': seq<int>)
    requires Backed(mem, c) && Backed(mem, c')
  {
    && |live| == |bytes| == |live'| == |bytes'| == |mem|
    && forall s :: 0 <= s < |mem| ==> BalancedFor(mem, c, live, bytes, c', live', bytes', s)
  }

  ghost predicate BalancedFor(mem: seq<Cells>, c: Chain, live: seq<int>, bytes: seq<int>,
                              c': Chain, live': seq<int>, bytes': seq<int>, s: nat)
    requires Backed(mem, c) && Backed(mem, c')
    requires s < |mem| == |live| == |bytes| == |live'| == |bytes'|
  {
    && live'[s] - Load(mem, c', s, true) == live[s] - Load(mem, c, s, true)
    && bytes'[s] - Load(mem, c', s, false) == bytes[s] - Load(mem, c, s, false)
  }

  function LessOne(live: seq<int>, l: Loc): (r: seq<int>)
    requires l.seg < |live|
    ensures |r| == |live|
  {
    live[l.seg := live[l.seg] - 1]
  }

  function LessBytes(mem: seq<Cells>, bytes: seq<int>, l: Loc): (r: seq<int>)
    requires InMem(mem, l) && |bytes| == |mem|
    ensures |r| == |bytes|
  {
    bytes[l.seg := bytes[l.seg] - ItemSize(ItemAt(mem, l))]
  }

  /** Freeing an item and emptying its slot. */
  lemma BalancedFree(mem: seq<Cells>, c: Chain, live: seq<int>, bytes: seq<int>,
                     c': Chain, live': seq<int>, bytes': seq<int>, i: nat)
    requires Backed(mem, c) && Backed(mem, c') && Balanced(mem, c, live, bytes, c', live', bytes')
    requires i < |c'| && c'[i].Entry?
    ensures Backed(mem, c'[i := Empty])
    ensures Balanced(mem, c, live, bytes, c'[i := Empty],
                     LessOne(live', c'[i].loc), LessBytes(mem, bytes', c'[i].loc))
  {
    var live'', bytes'' := LessOne(live', c'[i].loc), LessBytes(mem, bytes', c'[i].loc);
    var c'' := c'[i := Empty];
    assert Backed(mem, c'');
    forall s | 0 <= s < |mem|
      ensures BalancedFor(mem, c, live, bytes, c'', live'', bytes'', s)
    {
      assert BalancedFor(mem, c, live, bytes, c', live', bytes', s);
      LoadUpdate(mem, c', i, Empty, s, true);
      LoadUpdate(mem, c', i, Empty, s, false);
    }
  }

  /** An item that a segment already counts gets its slot. */
  lemma BalancedStore(mem: seq<Cells>, c: Chain, live: seq<int>, bytes: seq<int>,
                      c': Chain, live': seq<int>, bytes': seq<int>, i: nat, x: Slot)
    requires Backed(mem, c) && Backed(mem, c') && Balanced(mem, c, live, bytes, c', live', bytes')
    requires i < |c'| && !c'[i].Entry? && SlotBacked(mem, x)
    ensures Backed(mem, c'[i := x]) && Backed(mem, c + [x])
    ensures Balanced(mem, c + [x], live, bytes, c'[i := x], live', bytes')
  {
    var c'', d := c'[i := x], c + [x];
    assert Backed(mem, c'') && Backed(mem, d);
    forall s | 0 <= s < |mem|
      ensures BalancedFor(mem, d, live, bytes, c'', live', bytes', s)
    {
      assert BalancedFor(mem, c, live, bytes, c', live', bytes', s);
      LoadUpdate(mem, c', i, x, s, true);
      LoadUpdate(mem, c', i, x, s, false);
      LoadConcat(mem, c, [x], s, true);
      LoadConcat(mem, c, [x], s, false);
      LoadOne(mem, x, s);
    }
  }

  lemma BalancedGrow(mem: seq<Cells>, c: Chain, live: seq<int>, bytes: seq<int>, x: Slot)
    requires Backed(mem, c) && SlotBacked(mem, x) && |live| == |bytes| == |mem|
    ensures var c' := c + [x, Empty, Empty, Empty, Empty, Empty, Empty];
            && Backed(mem, c') && Backed(mem, c + [x])
            && Balanced(mem, c + [x], live, bytes, c', live, bytes)
  {
    var e: Chain := [Empty, Empty, Empty, Empty, Empty, Empty];
    var c' := c + [x, Empty, Empty, Empty, Empty, Empty, Empty];
    assert c' == c + [x] + e;
    forall s | 0 <= s < |mem|
      ensures BalancedFor(mem, c + [x], live, bytes, c', live, bytes, s)
    {
      LoadConcat(mem, c + [x], e, s, true);
      LoadConcat(mem, c + [x], e, s, false);
      LoadNone(mem, e, s, true);
      LoadNone(mem, e, s, false);
    }
  }

  lemma LoadOne(mem: seq<Cells>, x: Slot, s: nat)
    requires SlotBacked(mem, x)
    ensures Load(mem, [x], s, true) == Weight(mem, x, s, true)
    ensures Load(mem, [x], s, false) == Weight(mem, x, s, false)
  {
    assert [x][..0] == [];
  }
}
