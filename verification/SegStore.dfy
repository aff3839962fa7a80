/**
 * The index and the segments together: what every operation on a bucket chain keeps.
 *
 * `t` are the bucket chains, `pending` the items that are written but not yet inserted,
 * `newest` the item last inserted under each key and not deleted since.
 */
module SegStore {
  import opened Basics
  import opened SegItems
  import opened SegIndex

  /** h picks a key's bucket, g its tag. */
  datatype Hashing = Hashing(h: Key -> nat, g: Key -> nat)

  function BucketFor(hs: Hashing, n: nat, key: Key): (b: nat)
    requires n > 0
    ensures b < n
  {
    hs.h(key) % n
  }

  /** An entry of bucket b names the start of an item, whose key has the entry's tag and belongs to b. */
  ghost predicate Good(mem: seq<Cells>, ends: seq<nat>, hs: Hashing, n: nat, b: nat, x: Slot) {
    x.Entry? ==>
      && n > 0 && AtStart(mem, ends, x.loc)
      && x.tag == hs.g(ItemAt(mem, x.loc).key) && b == BucketFor(hs, n, ItemAt(mem, x.loc).key)
  }

  /** An item of segment l.seg starts at l.off. */
  ghost predicate AtStart(mem: seq<Cells>, ends: seq<nat>, l: Loc)
    ensures AtStart(mem, ends, l) ==> InMem(mem, l)
  {
    && l.seg < |mem| == |ends|
    && Tiles(mem[l.seg], 0, ends[l.seg]) && IsStart(mem[l.seg], 0, ends[l.seg], l.off)
    && (StartHasItem(mem[l.seg], 0, ends[l.seg], l.off); true)
  }

  /** No entry dangles: every slot in use leads to an item of a segment in use. */
  ghost predicate Entries(mem: seq<Cells>, ends: seq<nat>, hs: Hashing, t: seq<Chain>) {
    && |t| > 0
    && forall b, i :: 0 <= b < |t| && 0 <= i < |t[b]| ==> Good(mem, ends, hs, |t|, b, t[b][i])
  }

  lemma EntriesBacked(mem: seq<Cells>, ends: seq<nat>, hs: Hashing, t: seq<Chain>, b: nat)
    requires Entries(mem, ends, hs, t) && b < |t|
    ensures Backed(mem, t[b])
  {
    forall i | 0 <= i < |t[b]| ensures SlotBacked(mem, t[b][i]) {
      assert Good(mem, ends, hs, |t|, b, t[b][i]);
    }
  }

  /** Where a lookup of the key ends up. */
  ghost function Lookup(mem: seq<Cells>, ends: seq<nat>, hs: Hashing, t: seq<Chain>, key: Key): (r: Option<Loc>)
    requires Entries(mem, ends, hs, t)
    ensures r.Some? ==> InMem(mem, r.value) && ItemAt(mem, r.value).key == key
  {
    var b := BucketFor(hs, |t|, key);
    EntriesBacked(mem, ends, hs, t, b);
    Find(mem, key, hs.g(key), t[b])
  }

  /** t' is t with some slots emptied. */
  ghost predicate Sub(t': seq<Chain>, t: seq<Chain>) {
    && |t'| == |t|
    && forall b :: 0 <= b < |t| ==> |t'[b]| == |t[b]| && SubChain(t'[b], t[b])
  }

  ghost predicate SubChain(c': Chain, c: Chain) {
    |c'| == |c| && forall i :: 0 <= i < |c| ==> c'[i] == c[i] || c'[i] == Empty
  }

  /** Every entry of c' is at its place in c, or is x. */
  ghost predicate Drawn(c': Chain, c: Chain, x: Slot) {
    forall i :: 0 <= i < |c'| && c'[i].Entry? ==> (i < |c| && c'[i] == c[i]) || c'[i] == x
  }

  /** Changing one chain to one drawn from it and a good entry leaves no entry dangling. */
  lemma DrawnEntries(mem: seq<Cells>, ends: seq<nat>, hs: Hashing, t: seq<Chain>, b: nat, c': Chain, x: Slot)
    requires Entries(mem, ends, hs, t) && b < |t| && Drawn(c', t[b], x) && Good(mem, ends, hs, |t|, b, x)
    ensures Entries(mem, ends, hs, t[b := c'])
  {
    var t' := t[b := c'];
    forall b', i | 0 <= b' < |t'| && 0 <= i < |t'[b']| ensures Good(mem, ends, hs, |t'|, b', t'[b'][i]) {
      if b' == b && i < |t[b]| {
        assert Good(mem, ends, hs, |t|, b, t[b][i]);
      }
    }
  }

  /** Lookups in other chains are not affected. */
  lemma LookupOther(mem: seq<Cells>, ends: seq<nat>, hs: Hashing, t: seq<Chain>, b: nat, c': Chain, key: Key)
    requires Entries(mem, ends, hs, t) && b < |t| && Entries(mem, ends, hs, t[b := c'])
    requires b != BucketFor(hs, |t|, key)
    ensures Lookup(mem, ends, hs, t[b := c'], key) == Lookup(mem, ends, hs, t, key)
  {
  }

  /** A delete removes the key for good and no other. */
  lemma DeleteStore(mem: seq<Cells>, ends: seq<nat>, hs: Hashing, t: seq<Chain>, t': seq<Chain>, b: nat, key: Key,
                    k: Key)
    requires Entries(mem, ends, hs, t) && b == BucketFor(hs, |t|, key)
    requires Backed(mem, t[b]) && t' == t[b := Deleted(mem, key, hs.g(key), t[b])]
    ensures Sub(t', t) && Entries(mem, ends, hs, t')
    ensures Lookup(mem, ends, hs, t', k) == if k == key then None else Lookup(mem, ends, hs, t, k)
  {
    DrawnEntries(mem, ends, hs, t, b, t'[b], Empty);
    if b == BucketFor(hs, |t|, k) {
      DeletedFind(mem, key, hs.g(key), t[b], k, hs.g(k));
    } else {
      LookupOther(mem, ends, hs, t, b, t'[b], k);
    }
  }

  /**
   * Evicting the item at l takes its key away just when l was its current place, and leaves
   * no entry for l.
   */
  lemma EvictStore(mem: seq<Cells>, ends: seq<nat>, hs: Hashing, t: seq<Chain>, t': seq<Chain>,
                   b: nat, key: Key, l: Loc, k: Key)
    requires Entries(mem, ends, hs, t) && b == BucketFor(hs, |t|, key)
    requires Backed(mem, t[b]) && t' == t[b := Evicted(mem, key, hs.g(key), t[b], l)]
    ensures Sub(t', t) && Entries(mem, ends, hs, t')
    ensures Lookup(mem, ends, hs, t', k)
         == if k == key && Lookup(mem, ends, hs, t, key) == Some(l) then None else Lookup(mem, ends, hs, t, k)
  {
    DrawnEntries(mem, ends, hs, t, b, t'[b], Empty);
    if b == BucketFor(hs, |t|, k) {
      EvictedFind(mem, key, hs.g(key), t[b], l, k, hs.g(k));
    } else {
      LookupOther(mem, ends, hs, t, b, t'[b], k);
    }
  }

  ghost predicate Unnamed(t: seq<Chain>, l: Loc) {
    forall b, i :: 0 <= b < |t| && 0 <= i < |t[b]| && t[b][i].Entry? ==> t[b][i].loc != l
  }

  lemma EvictUnnames(mem: seq<Cells>, ends: seq<nat>, hs: Hashing, t: seq<Chain>, t': seq<Chain>, b: nat,
                     key: Key, l: Loc)
    requires Entries(mem, ends, hs, t) && b == BucketFor(hs, |t|, key)
    requires Backed(mem, t[b]) && t' == t[b := Evicted(mem, key, hs.g(key), t[b], l)]
    requires InMem(mem, l) && ItemAt(mem, l).key == key
    ensures Unnamed(t', l)
  {
    EvictedFind(mem, key, hs.g(key), t[b], l, key, hs.g(key));
    forall b', i | 0 <= b' < |t'| && 0 <= i < |t'[b']| && t'[b'][i].Entry? ensures t'[b'][i].loc != l {
      assert Good(mem, ends, hs, |t|, b', t[b'][i]);
    }
  }

  /** A relink moves the key from l to its copy at l', if l was current; l is named no more. */
  lemma RelinkStore(mem: seq<Cells>, ends: seq<nat>, hs: Hashing, t: seq<Chain>, t': seq<Chain>, b: nat,
                    key: Key, l: Loc, l': Loc, k: Key)
    requires Entries(mem, ends, hs, t) && b == BucketFor(hs, |t|, key)
    requires Backed(mem, t[b]) && t' == t[b := Relinked(mem, key, hs.g(key), t[b], l, l')]
    requires AtStart(mem, ends, l') && ItemAt(mem, l').key == key
    ensures Entries(mem, ends, hs, t')
    ensures Lookup(mem, ends, hs, t', k)
         == if k == key && Lookup(mem, ends, hs, t, key) == Some(l) then Some(l') else Lookup(mem, ends, hs, t, k)
  {
    DrawnEntries(mem, ends, hs, t, b, t'[b], Entry(hs.g(key), 0, l'));
    if b == BucketFor(hs, |t|, k) {
      RelinkedFind(mem, key, hs.g(key), t[b], l, l', k, hs.g(k));
    } else {
      LookupOther(mem, ends, hs, t, b, t'[b], k);
    }
  }

  lemma RelinkUnnames(mem: seq<Cells>, ends: seq<nat>, hs: Hashing, t: seq<Chain>, t': seq<Chain>, b: nat,
                      key: Key, l: Loc, l': Loc)
    requires Entries(mem, ends, hs, t) && b == BucketFor(hs, |t|, key) && l != l'
    requires Backed(mem, t[b]) && t' == t[b := Relinked(mem, key, hs.g(key), t[b], l, l')]
    requires InMem(mem, l) && ItemAt(mem, l).key == key
    ensures Unnamed(t', l)
  {
    forall b', i | 0 <= b' < |t'| && 0 <= i < |t'[b']| && t'[b'][i].Entry? ensures t'[b'][i].loc != l {
      assert Good(mem, ends, hs, |t|, b', t[b'][i]);
    }
  }

  /** An insert makes the new item the one its key leads to. */
  lemma InsertStore(mem: seq<Cells>, ends: seq<nat>, hs: Hashing, t: seq<Chain>, t': seq<Chain>,
                    b: nat, key: Key, l: Loc, k: Key)
    requires Entries(mem, ends, hs, t) && b == BucketFor(hs, |t|, key)
    requires Backed(mem, t[b]) && |t[b]| > 0 && |t[b]| % 7 == 0 && t' == t[b := Inserted(mem, key, hs.g(key), t[b], l)]
    requires AtStart(mem, ends, l) && ItemAt(mem, l).key == key
    ensures Entries(mem, ends, hs, t')
    ensures Lookup(mem, ends, hs, t', k) == if k == key then Some(l) else Lookup(mem, ends, hs, t, k)
  {
    DrawnEntries(mem, ends, hs, t, b, t'[b], Entry(hs.g(key), 0, l));
    if b == BucketFor(hs, |t|, k) {
      InsertedFind(mem, key, hs.g(key), t[b], l, k, hs.g(k));
    } else {
      LookupOther(mem, ends, hs, t, b, t'[b], k);
    }
  }

  // ---------------------------------------------------------------------------
  // Live counts
  // ---------------------------------------------------------------------------

  ghost predicate AllBacked(mem: seq<Cells>, t: seq<Chain>) {
    forall b :: 0 <= b < |t| ==> Backed(mem, t[b])
  }

  lemma EntriesAllBacked(mem: seq<Cells>, ends: seq<nat>, hs: Hashing, t: seq<Chain>)
    requires Entries(mem, ends, hs, t)
    ensures AllBacked(mem, t)
  {
    forall b | 0 <= b < |t| ensures Backed(mem, t[b]) {
      EntriesBacked(mem, ends, hs, t, b);
    }
  }

  /** The number of slots of the whole index that refer to segment s, or the bytes of their items. */
  ghost function TotalLoad(mem: seq<Cells>, t: seq<Chain>, s: nat, unit: bool): nat
    requires AllBacked(mem, t)
  {
    if t == [] then 0
    else TotalLoad(mem, t[..|t| - 1], s, unit) + Load(mem, t[|t| - 1], s, unit)
  }

  lemma {:induction false} TotalLoadUpdate(mem: seq<Cells>, t: seq<Chain>, b: nat, c: Chain, s: nat, unit: bool)
    requires AllBacked(mem, t) && b < |t| && Backed(mem, c)
    ensures AllBacked(mem, t[b := c])
    ensures TotalLoad(mem, t[b := c], s, unit)
         == TotalLoad(mem, t, s, unit) - Load(mem, t[b], s, unit) + Load(mem, c, s, unit)
  {
    var n := |t| - 1;
    if b == n {
      assert t[b := c][..n] == t[..n];
    } else {
      TotalLoadUpdate(mem, t[..n], b, c, s, unit);
      assert t[b := c][..n] == t[..n][b := c];
    }
  }

  lemma {:induction false} TotalLoadSome(mem: seq<Cells>, t: seq<Chain>, b: nat, i: nat, s: nat, unit: bool)
    requires AllBacked(mem, t) && b < |t| && i < |t[b]|
    ensures TotalLoad(mem, t, s, unit) >= Weight(mem, t[b][i], s, unit)
  {
    if b < |t| - 1 {
      TotalLoadSome(mem, t[..|t| - 1], b, i, s, unit);
    } else {
      LoadSome(mem, t[b], i, s, unit);
    }
  }

  lemma {:induction false} TotalLoadNone(mem: seq<Cells>, t: seq<Chain>, s: nat, unit: bool)
    requires AllBacked(mem, t)
    requires forall b, i :: 0 <= b < |t| && 0 <= i < |t[b]| && t[b][i].Entry? ==> t[b][i].loc.seg != s
    ensures TotalLoad(mem, t, s, unit) == 0
  {
    if t != [] {
      LoadNone(mem, t[|t| - 1], s, unit);
      TotalLoadNone(mem, t[..|t| - 1], s, unit);
    }
  }

  lemma {:induction false} TotalLoadSameItems(mem: seq<Cells>, mem': seq<Cells>, t: seq<Chain>, s: nat, unit: bool)
    requires AllBacked(mem, t) && AllBacked(mem', t)
    requires forall b, i :: 0 <= b < |t| && 0 <= i < |t[b]| && t[b][i].Entry? ==>
               ItemAt(mem', t[b][i].loc) == ItemAt(mem, t[b][i].loc)
    ensures TotalLoad(mem', t, s, unit) == TotalLoad(mem, t, s, unit)
  {
    if t != [] {
      LoadSameItems(mem, mem', t[|t| - 1], s, unit);
      TotalLoadSameItems(mem, mem', t[..|t| - 1], s, unit);
    }
  }

  /**
   * A segment's counters are exactly the index slots that refer to it plus the items written
   * to it but not yet inserted, in number and in bytes; the writers are those of the latter.
   */
  ghost predicate CountedFor(mem: seq<Cells>, t: seq<Chain>, pending: Chain, live: seq<int>, bytes: seq<int>, s: nat)
    requires AllBacked(mem, t) && Backed(mem, pending) && s < |mem| == |live| == |bytes|
  {
    && live[s] == TotalLoad(mem, t, s, true) + Load(mem, pending, s, true)
    && bytes[s] == TotalLoad(mem, t, s, false) + Load(mem, pending, s, false)
  }

  ghost predicate Counted(mem: seq<Cells>, t: seq<Chain>, pending: Chain, live: seq<int>, bytes: seq<int>)
    requires AllBacked(mem, t) && Backed(mem, pending)
  {
    && |live| == |bytes| == |mem|
    && forall s :: 0 <= s < |mem| ==> CountedFor(mem, t, pending, live, bytes, s)
  }

  /** Counters that kept pace with one chain still count the whole index. */
  lemma CountedChain(mem: seq<Cells>, t: seq<Chain>, pending: Chain, live: seq<int>, bytes: seq<int>,
                     b: nat, c': Chain, live': seq<int>, bytes': seq<int>)
    requires AllBacked(mem, t) && Backed(mem, pending) && Counted(mem, t, pending, live, bytes)
    requires b < |t| && Backed(mem, c') && Balanced(mem, t[b], live, bytes, c', live', bytes')
    ensures AllBacked(mem, t[b := c'])
    ensures Counted(mem, t[b := c'], pending, live', bytes')
  {
    var t' := t[b := c'];
    assert AllBacked(mem, t');
    forall s | 0 <= s < |mem| ensures CountedFor(mem, t', pending, live', bytes', s) {
      assert CountedFor(mem, t, pending, live, bytes, s);
      assert BalancedFor(mem, t[b], live, bytes, c', live', bytes', s);
      TotalLoadUpdate(mem, t, b, c', s, true);
      TotalLoadUpdate(mem, t, b, c', s, false);
    }
  }

  /** The pending item at position i is inserted. */
  lemma CountedInsert(mem: seq<Cells>, t: seq<Chain>, pending: Chain, live: seq<int>, bytes: seq<int>,
                      b: nat, c': Chain, live': seq<int>, bytes': seq<int>, i: nat, x: Slot)
    requires AllBacked(mem, t) && Backed(mem, pending) && Counted(mem, t, pending, live, bytes)
    requires i < |pending| && pending[i].Entry? && x.Entry? && x.loc == pending[i].loc
    requires b < |t| && Backed(mem, c') && Backed(mem, t[b] + [x])
    requires Balanced(mem, t[b] + [x], live, bytes, c', live', bytes')
    ensures AllBacked(mem, t[b := c']) && Backed(mem, pending[i := Empty])
    ensures Counted(mem, t[b := c'], pending[i := Empty], live', bytes')
  {
    var t', p' := t[b := c'], pending[i := Empty];
    assert AllBacked(mem, t');
    forall s | 0 <= s < |mem| ensures CountedFor(mem, t', p', live', bytes', s) {
      assert CountedFor(mem, t, pending, live, bytes, s);
      assert BalancedFor(mem, t[b] + [x], live, bytes, c', live', bytes', s);
      TotalLoadUpdate(mem, t, b, c', s, true);
      TotalLoadUpdate(mem, t, b, c', s, false);
      LoadConcat(mem, t[b], [x], s, true);
      LoadConcat(mem, t[b], [x], s, false);
      LoadOne(mem, x, s);
      LoadUpdate(mem, pending, i, Empty, s, true);
      LoadUpdate(mem, pending, i, Empty, s, false);
    }
  }

  /** One more item of segment l.seg is counted. */
  function PlusOne(live: seq<int>, l: Loc): (r: seq<int>)
    requires l.seg < |live|
    ensures |r| == |live|
  {
    live[l.seg := live[l.seg] + 1]
  }

  function PlusBytes(mem: seq<Cells>, bytes: seq<int>, l: Loc): (r: seq<int>)
    requires InMem(mem, l) && |bytes| == |mem|
    ensures |r| == |bytes|
  {
    bytes[l.seg := bytes[l.seg] + ItemSize(ItemAt(mem, l))]
  }

  /** An entry was given to x before its segment counted it; counting it restores the balance. */
  lemma CountedRelink(mem: seq<Cells>, t: seq<Chain>, pending: Chain, live: seq<int>, bytes: seq<int>,
                      b: nat, c': Chain, live': seq<int>, bytes': seq<int>, x: Slot)
    requires AllBacked(mem, t) && Backed(mem, pending) && Counted(mem, t, pending, live, bytes)
    requires x.Entry? && b < |t| && Backed(mem, c') && Backed(mem, t[b] + [x]) && InMem(mem, x.loc)
    requires Balanced(mem, t[b] + [x], live, bytes, c', live', bytes')
    ensures AllBacked(mem, t[b := c'])
    ensures Counted(mem, t[b := c'], pending, PlusOne(live', x.loc), PlusBytes(mem, bytes', x.loc))
  {
    var t' := t[b := c'];
    var live'', bytes'' := PlusOne(live', x.loc), PlusBytes(mem, bytes', x.loc);
    assert AllBacked(mem, t');
    forall s | 0 <= s < |mem| ensures CountedFor(mem, t', pending, live'', bytes'', s) {
      assert CountedFor(mem, t, pending, live, bytes, s);
      assert BalancedFor(mem, t[b] + [x], live, bytes, c', live', bytes', s);
      TotalLoadUpdate(mem, t, b, c', s, true);
      TotalLoadUpdate(mem, t, b, c', s, false);
      LoadConcat(mem, t[b], [x], s, true);
      LoadConcat(mem, t[b], [x], s, false);
      LoadOne(mem, x, s);
    }
  }

  /** A new item is written and is pending. */
  lemma CountedDefine(mem: seq<Cells>, t: seq<Chain>, pending: Chain, live: seq<int>, bytes: seq<int>, x: Slot)
    requires AllBacked(mem, t) && Backed(mem, pending) && Counted(mem, t, pending, live, bytes)
    requires x.Entry? && InMem(mem, x.loc)
    ensures Backed(mem, pending + [x])
    ensures Counted(mem, t, pending + [x], PlusOne(live, x.loc), PlusBytes(mem, bytes, x.loc))
  {
    var p', live', bytes' := pending + [x], PlusOne(live, x.loc), PlusBytes(mem, bytes, x.loc);
    assert Backed(mem, p');
    forall s | 0 <= s < |mem| ensures CountedFor(mem, t, p', live', bytes', s) {
      assert CountedFor(mem, t, pending, live, bytes, s);
      LoadConcat(mem, pending, [x], s, true);
      LoadConcat(mem, pending, [x], s, false);
      LoadOne(mem, x, s);
    }
  }

  // ---------------------------------------------------------------------------
  // The invariant of index and memory
  // ---------------------------------------------------------------------------

  /** Pending items are written, distinct, and not in the index yet. */
  ghost predicate PendingOk(mem: seq<Cells>, ends: seq<nat>, t: seq<Chain>, pending: Chain) {
    && Distinct(pending)
    && forall i :: 0 <= i < |pending| && pending[i].Entry? ==>
         AtStart(mem, ends, pending[i].loc) && Unnamed(t, pending[i].loc)
  }

  /** A key that is found leads to the item last inserted under it. */
  ghost predicate Fresh(mem: seq<Cells>, ends: seq<nat>, hs: Hashing, t: seq<Chain>, newest: map<Key, Item>)
    requires Entries(mem, ends, hs, t)
  {
    forall k :: Lookup(mem, ends, hs, t, k).Some? ==>
      k in newest && newest[k] == ItemAt(mem, Lookup(mem, ends, hs, t, k).value)
  }

  ghost predicate WritersOk(mem: seq<Cells>, pending: Chain, wref: seq<int>)
    requires Backed(mem, pending)
  {
    |wref| == |mem| && forall s :: 0 <= s < |mem| ==> wref[s] == Load(mem, pending, s, true)
  }

  lemma PendingBacked(mem: seq<Cells>, ends: seq<nat>, t: seq<Chain>, pending: Chain)
    requires PendingOk(mem, ends, t, pending)
    ensures Backed(mem, pending)
  {
    forall i | 0 <= i < |pending| ensures SlotBacked(mem, pending[i]) {
    }
  }

  /** What holds of index, memory and counters between any two operations. */
  datatype World = World(mem: seq<Cells>, ends: seq<nat>, hs: Hashing, t: seq<Chain>, pending: Chain,
                         live: seq<int>, bytes: seq<int>, wref: seq<int>, newest: map<Key, Item>,
                         at: seq<int>, ttl: seq<int>)
  {
    ghost predicate Sound() {
      && |mem| == |ends| == |live| == |bytes| == |wref| == |at| == |ttl|
      && Entries(mem, ends, hs, t)
      && PendingOk(mem, ends, t, pending)
      && AllBacked(mem, t) && Backed(mem, pending)
      && Counted(mem, t, pending, live, bytes)
      && WritersOk(mem, pending, wref)
      && Fresh(mem, ends, hs, t, newest)
    }

    ghost function Look(key: Key): (r: Option<Loc>)
      requires Sound()
      ensures r.Some? ==> InMem(mem, r.value) && ItemAt(mem, r.value).key == key
    {
      Lookup(mem, ends, hs, t, key)
    }
  }

  /** What the bucket operations need to know of a chain. */
  lemma SoundChain(w: World, b: nat)
    requires w.Sound() && b < |w.t|
    ensures Backed(w.mem, w.t[b]) && |w.live| == |w.bytes| == |w.mem|
  {
  }

  lemma UnnamedSub(t: seq<Chain>, t': seq<Chain>, l: Loc)
    requires Sub(t', t) && Unnamed(t, l)
    ensures Unnamed(t', l)
  {
    forall b, i | 0 <= b < |t'| && 0 <= i < |t'[b]| && t'[b][i].Entry? ensures t'[b][i].loc != l {
      assert SubChain(t'[b], t[b]);
    }
  }

  lemma PendingSub(mem: seq<Cells>, ends: seq<nat>, t: seq<Chain>, t': seq<Chain>, pending: Chain)
    requires PendingOk(mem, ends, t, pending) && Sub(t', t)
    ensures PendingOk(mem, ends, t', pending)
  {
    forall i | 0 <= i < |pending| && pending[i].Entry? ensures Unnamed(t', pending[i].loc) {
      UnnamedSub(t, t', pending[i].loc);
    }
  }

  lemma SoundDelete(w: World, key: Key, b: nat, c': Chain, live': seq<int>, bytes': seq<int>)
    requires w.Sound() && b == BucketFor(w.hs, |w.t|, key)
    requires c' == Deleted(w.mem, key, w.hs.g(key), w.t[b])
    requires Balanced(w.mem, w.t[b], w.live, w.bytes, c', live', bytes')
    ensures var w' := w.(t := w.t[b := c'], live := live', bytes := bytes', newest := w.newest - {key});
            w'.Sound() && forall k :: w'.Look(k) == if k == key then None else w.Look(k)
  {
    var t' := w.t[b := c'];
    DeleteStore(w.mem, w.ends, w.hs, w.t, t', b, key, key);
    forall k ensures Lookup(w.mem, w.ends, w.hs, t', k) == if k == key then None else w.Look(k) {
      DeleteStore(w.mem, w.ends, w.hs, w.t, t', b, key, k);
    }
    PendingSub(w.mem, w.ends, w.t, t', w.pending);
    CountedChain(w.mem, w.t, w.pending, w.live, w.bytes, b, c', live', bytes');
  }

  lemma SoundEvict(w: World, key: Key, l: Loc, b: nat, c': Chain, live': seq<int>, bytes': seq<int>)
    requires w.Sound() && b == BucketFor(w.hs, |w.t|, key)
    requires c' == Evicted(w.mem, key, w.hs.g(key), w.t[b], l)
    requires Balanced(w.mem, w.t[b], w.live, w.bytes, c', live', bytes')
    ensures var w' := w.(t := w.t[b := c'], live := live', bytes := bytes');
            && w'.Sound() && Sub(w'.t, w.t)
            && (InMem(w.mem, l) && ItemAt(w.mem, l).key == key ==> Unnamed(w'.t, l))
            && (forall k :: w'.Look(k) == if k == key && w.Look(key) == Some(l) then None else w.Look(k))
  {
    if InMem(w.mem, l) && ItemAt(w.mem, l).key == key {
      EvictUnnames(w.mem, w.ends, w.hs, w.t, w.t[b := c'], b, key, l);
    }
    var t' := w.t[b := c'];
    EvictStore(w.mem, w.ends, w.hs, w.t, t', b, key, l, key);
    forall k ensures Lookup(w.mem, w.ends, w.hs, t', k)
                  == if k == key && w.Look(key) == Some(l) then None else w.Look(k)
    {
      EvictStore(w.mem, w.ends, w.hs, w.t, t', b, key, l, k);
    }
    PendingSub(w.mem, w.ends, w.t, t', w.pending);
    CountedChain(w.mem, w.t, w.pending, w.live, w.bytes, b, c', live', bytes');
  }

  /** The pending item at position i becomes the current one of its key. */
  lemma SoundInsert(w: World, key: Key, i: nat, b: nat, c': Chain, live': seq<int>, bytes': seq<int>, wref': seq<int>)
    requires w.Sound() && b == BucketFor(w.hs, |w.t|, key) && |w.t[b]| > 0 && |w.t[b]| % 7 == 0
    requires i < |w.pending| && w.pending[i].Entry? && ItemAt(w.mem, w.pending[i].loc).key == key
    requires c' == Inserted(w.mem, key, w.hs.g(key), w.t[b], w.pending[i].loc) && Backed(w.mem, c')
    requires Backed(w.mem, w.t[b] + [Entry(w.hs.g(key), 0, w.pending[i].loc)])
    requires Balanced(w.mem, w.t[b] + [Entry(w.hs.g(key), 0, w.pending[i].loc)], w.live, w.bytes, c', live', bytes')
    requires wref' == LessOne(w.wref, w.pending[i].loc)
    ensures var l := w.pending[i].loc;
            var w' := w.(t := w.t[b := c'], pending := w.pending[i := Empty], live := live', bytes := bytes',
                         wref := wref', newest := w.newest[key := ItemAt(w.mem, l)]);
            w'.Sound() && forall k :: w'.Look(k) == if k == key then Some(l) else w.Look(k)
  {
    var l := w.pending[i].loc;
    var x := Entry(w.hs.g(key), 0, l);
    var t', p' := w.t[b := c'], w.pending[i := Empty];
    InsertStore(w.mem, w.ends, w.hs, w.t, t', b, key, l, key);
    forall k ensures Lookup(w.mem, w.ends, w.hs, t', k) == if k == key then Some(l) else w.Look(k) {
      InsertStore(w.mem, w.ends, w.hs, w.t, t', b, key, l, k);
    }
    CountedInsert(w.mem, w.t, w.pending, w.live, w.bytes, b, c', live', bytes', i, x);
    InsertedDrawn(w.mem, key, w.hs.g(key), w.t[b], l);
    PendingInsert(w, b, c', i, x);
    forall s | 0 <= s < |w.mem| ensures wref'[s] == Load(w.mem, p', s, true) {
      LoadUpdate(w.mem, w.pending, i, Empty, s, true);
    }
  }

  lemma InsertedDrawn(mem: seq<Cells>, key: Key, tag: nat, c: Chain, l: Loc)
    requires Backed(mem, c) && |c| > 0 && |c| % 7 == 0
    ensures Drawn(Inserted(mem, key, tag, c, l), c, Entry(tag, 0, l))
  {
  }

  lemma PendingInsert(w: World, b: nat, c': Chain, i: nat, x: Slot)
    requires PendingOk(w.mem, w.ends, w.t, w.pending) && b < |w.t| && i < |w.pending| && w.pending[i].Entry?
    requires x.Entry? && x.loc == w.pending[i].loc && Drawn(c', w.t[b], x)
    ensures PendingOk(w.mem, w.ends, w.t[b := c'], w.pending[i := Empty])
  {
    var t', p' := w.t[b := c'], w.pending[i := Empty];
    forall m | 0 <= m < |p'| && p'[m].Entry? ensures Unnamed(t', p'[m].loc) {
      assert Unnamed(w.t, w.pending[m].loc) && w.pending[m].loc != x.loc;
    }
  }

  /** The current item of a key is now the copy at l', and its segment counts it. */
  lemma SoundRelink(w: World, key: Key, l: Loc, l': Loc, b: nat, c': Chain, live': seq<int>, bytes': seq<int>)
    requires w.Sound() && b == BucketFor(w.hs, |w.t|, key) && w.Look(key) == Some(l)
    requires AtStart(w.mem, w.ends, l') && ItemAt(w.mem, l') == ItemAt(w.mem, l)
    requires forall i :: 0 <= i < |w.pending| && w.pending[i].Entry? ==> w.pending[i].loc != l'
    requires c' == Relinked(w.mem, key, w.hs.g(key), w.t[b], l, l') && Backed(w.mem, c')
    requires Backed(w.mem, w.t[b] + [Entry(w.hs.g(key), 0, l')])
    requires Balanced(w.mem, w.t[b] + [Entry(w.hs.g(key), 0, l')], w.live, w.bytes, c', live', bytes')
    ensures var w' := w.(t := w.t[b := c'], live := PlusOne(live', l'), bytes := PlusBytes(w.mem, bytes', l'));
            w'.Sound() && forall k :: w'.Look(k) == if k == key then Some(l') else w.Look(k)
  {
    var x := Entry(w.hs.g(key), 0, l');
    var t' := w.t[b := c'];
    RelinkStore(w.mem, w.ends, w.hs, w.t, t', b, key, l, l', key);
    forall k ensures Lookup(w.mem, w.ends, w.hs, t', k) == if k == key then Some(l') else w.Look(k) {
      RelinkStore(w.mem, w.ends, w.hs, w.t, t', b, key, l, l', k);
    }
    CountedRelink(w.mem, w.t, w.pending, w.live, w.bytes, b, c', live', bytes', x);
    forall m | 0 <= m < |w.pending| && w.pending[m].Entry? ensures Unnamed(t', w.pending[m].loc) {
      assert Unnamed(w.t, w.pending[m].loc);
    }
  }

  /** The copied item was outdated: only stale entries of its key went. */
  lemma SoundRelinkStale(w: World, key: Key, l: Loc, l': Loc, b: nat, c': Chain, live': seq<int>, bytes': seq<int>)
    requires w.Sound() && b == BucketFor(w.hs, |w.t|, key) && w.Look(key) != Some(l)
    requires c' == Relinked(w.mem, key, w.hs.g(key), w.t[b], l, l') && Backed(w.mem, c')
    requires Balanced(w.mem, w.t[b], w.live, w.bytes, c', live', bytes')
    ensures var w' := w.(t := w.t[b := c'], live := live', bytes := bytes');
            w'.Sound() && Sub(w'.t, w.t) && forall k :: w'.Look(k) == w.Look(k)
  {
    var t' := w.t[b := c'];
    var c, g := w.t[b], w.hs.g(key);
    var f := FirstHitFrom(w.mem, key, g, c, 0);
    assert Find(w.mem, key, g, c) == w.Look(key);
    assert SubChain(c', c);
    assert Drawn(c', c, Empty);
    DrawnEntries(w.mem, w.ends, w.hs, w.t, b, c', Empty);
    forall k ensures Lookup(w.mem, w.ends, w.hs, t', k) == w.Look(k) {
      if b == BucketFor(w.hs, |w.t|, k) {
        if k == key {
          FindAt(w.mem, key, g, c', f);
        } else {
          FindUnaffected(w.mem, k, w.hs.g(k), c, c');
        }
      } else {
        LookupOther(w.mem, w.ends, w.hs, w.t, b, c', k);
      }
    }
    PendingSub(w.mem, w.ends, w.t, t', w.pending);
    CountedChain(w.mem, w.t, w.pending, w.live, w.bytes, b, c', live', bytes');
  }

  lemma SoundGet(w: World, b: nat, c': Chain)
    requires w.Sound() && b < |w.t| && SameButFreq(w.t[b], c')
    ensures var w' := w.(t := w.t[b := c']);
            w'.Sound() && forall k :: w'.Look(k) == w.Look(k)
  {
    var t' := w.t[b := c'];
    forall b', i | 0 <= b' < |t'| && 0 <= i < |t'[b']| ensures Good(w.mem, w.ends, w.hs, |t'|, b', t'[b'][i]) {
      assert Good(w.mem, w.ends, w.hs, |w.t|, b', w.t[b'][i]);
    }
    FindSameButFreq(w.mem, [], 0, w.t[b], c');
    forall k ensures Lookup(w.mem, w.ends, w.hs, t', k) == w.Look(k) {
      FindSameButFreq(w.mem, k, w.hs.g(k), w.t[b], c');
    }
    forall m | 0 <= m < |w.pending| && w.pending[m].Entry? ensures Unnamed(t', w.pending[m].loc) {
      assert Unnamed(w.t, w.pending[m].loc);
    }
    forall s | 0 <= s < |w.mem| ensures BalancedFor(w.mem, w.t[b], w.live, w.bytes, c', w.live, w.bytes, s) {
      LoadSameButFreq(w.mem, w.t[b], c', s, true);
      LoadSameButFreq(w.mem, w.t[b], c', s, false);
    }
    CountedChain(w.mem, w.t, w.pending, w.live, w.bytes, b, c', w.live, w.bytes);
  }

  // ---------------------------------------------------------------------------
  // Changes to memory
  // ---------------------------------------------------------------------------

  /** An item that is where it was, unchanged. */
  ghost predicate Stays(mem: seq<Cells>, mem': seq<Cells>, ends': seq<nat>, l: Loc) {
    InMem(mem, l) && AtStart(mem', ends', l) && ItemAt(mem', l) == ItemAt(mem, l)
  }

  ghost predicate Keeps(w: World, mem': seq<Cells>, ends': seq<nat>) {
    && |mem'| == |w.mem| == |ends'|
    && (forall b, i :: 0 <= b < |w.t| && 0 <= i < |w.t[b]| && w.t[b][i].Entry? ==>
          Stays(w.mem, mem', ends', w.t[b][i].loc))
    && (forall i :: 0 <= i < |w.pending| && w.pending[i].Entry? ==> Stays(w.mem, mem', ends', w.pending[i].loc))
  }

  /** Memory may change anywhere but in the items that the index or a writer refers to. */
  lemma SoundKeeps(w: World, mem': seq<Cells>, ends': seq<nat>)
    requires w.Sound() && Keeps(w, mem', ends')
    ensures var w' := w.(mem := mem', ends := ends');
            w'.Sound() && forall k :: w'.Look(k) == w.Look(k)
  {
    var w' := w.(mem := mem', ends := ends');
    KeepsEntries(w, mem', ends');
    EntriesAllBacked(mem', ends', w.hs, w.t);
    PendingBacked(mem', ends', w.t, w.pending);
    forall k ensures Lookup(mem', ends', w.hs, w.t, k) == w.Look(k) {
      FindSameItems(w.mem, mem', k, w.hs.g(k), w.t[BucketFor(w.hs, |w.t|, k)]);
    }
    forall s | 0 <= s < |mem'|
      ensures CountedFor(mem', w.t, w.pending, w.live, w.bytes, s)
      ensures w.wref[s] == Load(mem', w.pending, s, true)
    {
      assert CountedFor(w.mem, w.t, w.pending, w.live, w.bytes, s);
      TotalLoadSameItems(w.mem, mem', w.t, s, true);
      TotalLoadSameItems(w.mem, mem', w.t, s, false);
      LoadSameItems(w.mem, mem', w.pending, s, true);
      LoadSameItems(w.mem, mem', w.pending, s, false);
    }
  }

  lemma KeepsEntries(w: World, mem': seq<Cells>, ends': seq<nat>)
    requires w.Sound() && Keeps(w, mem', ends')
    ensures Entries(mem', ends', w.hs, w.t) && PendingOk(mem', ends', w.t, w.pending)
  {
    forall b, i | 0 <= b < |w.t| && 0 <= i < |w.t[b]| ensures Good(mem', ends', w.hs, |w.t|, b, w.t[b][i]) {
      assert Good(w.mem, w.ends, w.hs, |w.t|, b, w.t[b][i]);
    }
  }

  /** Bytes of segment s from the end of its items on are rewritten, and its end may move up. */
  lemma KeepsAbove(w: World, s: nat, c': Cells, e': nat)
    requires w.Sound() && s < |w.mem| && Tiles(w.mem[s], 0, w.ends[s])
    requires forall o :: 0 <= o < w.ends[s] && o in w.mem[s] ==> o in c' && c'[o] == w.mem[s][o]
    requires Tiles(c', 0, e') && forall o :: IsStart(w.mem[s], 0, w.ends[s], o) ==> IsStart(c', 0, e', o)
    ensures Keeps(w, w.mem[s := c'], w.ends[s := e'])
  {
    var mem', ends' := w.mem[s := c'], w.ends[s := e'];
    forall l | AtStart(w.mem, w.ends, l) ensures Stays(w.mem, mem', ends', l) {
      if l.seg == s {
        StartHasItem(w.mem[s], 0, w.ends[s], l.off);
        assert IsStart(w.mem[s], 0, w.ends[s], l.off);
        assert IsStart(c', 0, e', l.off);
      }
    }
    forall b, i | 0 <= b < |w.t| && 0 <= i < |w.t[b]| && w.t[b][i].Entry?
      ensures Stays(w.mem, mem', ends', w.t[b][i].loc)
    {
      assert Good(w.mem, w.ends, w.hs, |w.t|, b, w.t[b][i]);
    }
  }

  /** Nothing refers to segment s. */
  ghost predicate Vacant(w: World, s: nat) {
    && (forall b, i :: 0 <= b < |w.t| && 0 <= i < |w.t[b]| && w.t[b][i].Entry? ==> w.t[b][i].loc.seg != s)
    && (forall i :: 0 <= i < |w.pending| && w.pending[i].Entry? ==> w.pending[i].loc.seg != s)
  }

  /** A segment that nothing refers to may be emptied. */
  lemma KeepsVacant(w: World, s: nat, c': Cells, e': nat)
    requires w.Sound() && s < |w.mem| && Vacant(w, s)
    ensures Keeps(w, w.mem[s := c'], w.ends[s := e'])
  {
    var mem', ends' := w.mem[s := c'], w.ends[s := e'];
    forall b, i | 0 <= b < |w.t| && 0 <= i < |w.t[b]| && w.t[b][i].Entry?
      ensures Stays(w.mem, mem', ends', w.t[b][i].loc)
    {
      assert Good(w.mem, w.ends, w.hs, |w.t|, b, w.t[b][i]);
    }
  }

  /** The counters of a segment that nothing refers to are zero, and conversely. */
  lemma VacantIffZero(w: World, s: nat)
    requires w.Sound() && s < |w.mem|
    ensures Vacant(w, s) <==> w.live[s] == 0
    ensures Vacant(w, s) ==> w.bytes[s] == 0 && w.wref[s] == 0
  {
    assert CountedFor(w.mem, w.t, w.pending, w.live, w.bytes, s);
    if Vacant(w, s) {
      TotalLoadNone(w.mem, w.t, s, true);
      TotalLoadNone(w.mem, w.t, s, false);
      LoadNone(w.mem, w.pending, s, true);
      LoadNone(w.mem, w.pending, s, false);
    }
    if w.live[s] == 0 {
      forall b, i | 0 <= b < |w.t| && 0 <= i < |w.t[b]| && w.t[b][i].Entry? ensures w.t[b][i].loc.seg != s {
        TotalLoadSome(w.mem, w.t, b, i, s, true);
      }
      forall i | 0 <= i < |w.pending| && w.pending[i].Entry? ensures w.pending[i].loc.seg != s {
        LoadSome(w.mem, w.pending, i, s, true);
      }
    }
  }

  /** A new item is written behind the others of its segment and is pending. */
  lemma SoundDefine(w: World, x: Slot)
    requires w.Sound() && x.Entry? && AtStart(w.mem, w.ends, x.loc) && Unnamed(w.t, x.loc)
    requires forall i :: 0 <= i < |w.pending| && w.pending[i].Entry? ==> w.pending[i].loc != x.loc
    ensures var w' := w.(pending := w.pending + [x], live := PlusOne(w.live, x.loc),
                         bytes := PlusBytes(w.mem, w.bytes, x.loc), wref := PlusOne(w.wref, x.loc));
            w'.Sound() && forall k :: w'.Look(k) == w.Look(k)
  {
    CountedDefine(w.mem, w.t, w.pending, w.live, w.bytes, x);
    forall s | 0 <= s < |w.mem| ensures PlusOne(w.wref, x.loc)[s] == Load(w.mem, w.pending + [x], s, true) {
      LoadConcat(w.mem, w.pending, [x], s, true);
      LoadOne(w.mem, x, s);
    }
  }

  /** An item that starts where a segment's items ended is in no slot yet. */
  lemma NotNamedYet(w: World, l: Loc)
    requires w.Sound() && l.seg < |w.mem| && l.off >= w.ends[l.seg]
    ensures Unnamed(w.t, l)
    ensures forall i :: 0 <= i < |w.pending| && w.pending[i].Entry? ==> w.pending[i].loc != l
  {
    forall b, i | 0 <= b < |w.t| && 0 <= i < |w.t[b]| && w.t[b][i].Entry? ensures w.t[b][i].loc != l {
      assert Good(w.mem, w.ends, w.hs, |w.t|, b, w.t[b][i]);
      var m := w.t[b][i].loc;
      StartHasItem(w.mem[m.seg], 0, w.ends[m.seg], m.off);
    }
    forall i | 0 <= i < |w.pending| && w.pending[i].Entry? ensures w.pending[i].loc != l {
      var m := w.pending[i].loc;
      StartHasItem(w.mem[m.seg], 0, w.ends[m.seg], m.off);
    }
  }

  /** The store with nothing in it. */
  lemma SoundEmpty(w: World)
    requires |w.mem| == |w.ends| == |w.live| == |w.bytes| == |w.wref| == |w.at| == |w.ttl| && |w.t| > 0
    requires forall b, i :: 0 <= b < |w.t| && 0 <= i < |w.t[b]| ==> w.t[b][i] == Empty
    requires w.pending == []
    requires forall s :: 0 <= s < |w.mem| ==> w.live[s] == 0 && w.bytes[s] == 0 && w.wref[s] == 0
    ensures w.Sound() && forall k :: w.Look(k) == None
  {
    assert AllBacked(w.mem, w.t);
    forall k ensures Lookup(w.mem, w.ends, w.hs, w.t, k) == None {
      assert forall j :: 0 <= j < |w.t[BucketFor(w.hs, |w.t|, k)]| ==> w.t[BucketFor(w.hs, |w.t|, k)][j] == Empty;
    }
    forall s | 0 <= s < |w.mem| ensures CountedFor(w.mem, w.t, w.pending, w.live, w.bytes, s) {
      TotalLoadNone(w.mem, w.t, s, true);
      TotalLoadNone(w.mem, w.t, s, false);
    }
  }

  // ---------------------------------------------------------------------------
  // Walking a segment
  // ---------------------------------------------------------------------------

  /** Entries that lead into segment s lead to items from offset a on. */
  ghost predicate Ahead(w: World, s: nat, a: nat) {
    && s < |w.mem| == |w.ends| && a <= w.ends[s] && Tiles(w.mem[s], a, w.ends[s])
    && forall b, i :: 0 <= b < |w.t| && 0 <= i < |w.t[b]| && w.t[b][i].Entry? && w.t[b][i].loc.seg == s ==>
         IsStart(w.mem[s], a, w.ends[s], w.t[b][i].loc.off)
  }

  /** Every entry of t' was already there in t, unless it leads into segment d. */
  ghost predicate Inherits(t': seq<Chain>, t: seq<Chain>, d: nat) {
    && |t'| == |t|
    && forall b, i :: 0 <= b < |t'| && 0 <= i < |t'[b]| && t'[b][i].Entry? && t'[b][i].loc.seg != d ==>
         i < |t[b]| && t[b][i] == t'[b][i]
  }

  lemma InheritsTrans(t: seq<Chain>, t': seq<Chain>, t'': seq<Chain>, d: nat)
    requires Inherits(t', t, d) && Inherits(t'', t', d)
    ensures Inherits(t'', t, d)
  {
  }

  lemma VacantInherits(w: World, w': World, s: nat, d: nat)
    requires Vacant(w, s) && Inherits(w'.t, w.t, d) && s != d && w'.pending == w.pending
    ensures Vacant(w', s)
  {
  }

  lemma SubInherits(t': seq<Chain>, t: seq<Chain>, d: nat)
    requires Sub(t', t)
    ensures Inherits(t', t, d)
  {
    forall b | 0 <= b < |t| ensures SubChain(t'[b], t[b]) {
    }
  }

  lemma OnceInherits(t: seq<Chain>, b: nat, c': Chain, x: Slot, p: nat, d: nat)
    requires b < |t| && OnceAt(c', t[b], x, p) && (x.Entry? ==> x.loc.seg == d)
    ensures Inherits(t[b := c'], t, d)
  {
  }

  lemma AheadStart(w: World, s: nat)
    requires w.Sound() && s < |w.mem| && Tiles(w.mem[s], 0, w.ends[s])
    ensures Ahead(w, s, 0)
  {
    forall b, i | 0 <= b < |w.t| && 0 <= i < |w.t[b]| && w.t[b][i].Entry? && w.t[b][i].loc.seg == s
      ensures IsStart(w.mem[s], 0, w.ends[s], w.t[b][i].loc.off)
    {
      assert Good(w.mem, w.ends, w.hs, |w.t|, b, w.t[b][i]);
    }
  }

  /** Once the item at a has no entry, those left lead to the items behind it. */
  lemma AheadStep(w: World, w': World, s: nat, a: nat, d: nat)
    requires Ahead(w, s, a) && a < w.ends[s] && Inherits(w'.t, w.t, d) && d != s && Unnamed(w'.t, Loc(s, a))
    requires |w'.mem| == |w'.ends| == |w.mem| && w'.mem[s] == w.mem[s] && w'.ends[s] == w.ends[s]
    ensures Ahead(w', s, a + ItemSize(w.mem[s][a].item))
  {
    var a' := a + ItemSize(w.mem[s][a].item);
    forall b, i | 0 <= b < |w'.t| && 0 <= i < |w'.t[b]| && w'.t[b][i].Entry? && w'.t[b][i].loc.seg == s
      ensures IsStart(w.mem[s], a', w.ends[s], w'.t[b][i].loc.off)
    {
      var l := w'.t[b][i].loc;
      assert IsStart(w.mem[s], a, w.ends[s], l.off) && l != Loc(s, a);
    }
  }

  /** A walk that reached the end of a segment without writers leaves nothing that refers to it. */
  lemma AheadDone(w: World, s: nat)
    requires w.Sound() && s < |w.mem| && Ahead(w, s, w.ends[s]) && w.wref[s] == 0
    ensures Vacant(w, s)
  {
    forall b, i | 0 <= b < |w.t| && 0 <= i < |w.t[b]| && w.t[b][i].Entry? ensures w.t[b][i].loc.seg != s {
    }
    forall i | 0 <= i < |w.pending| && w.pending[i].Entry? ensures w.pending[i].loc.seg != s {
      LoadSome(w.mem, w.pending, i, s, true);
    }
  }

  /** Lookups that led into segment s may have come to nothing; the others are as they were. */
  ghost predicate LostOnly(w: World, w': World, s: nat)
    requires w.Sound() && w'.Sound()
  {
    forall k :: w'.Look(k) == w.Look(k) || (w'.Look(k) == None && w.Look(k).Some? && w.Look(k).value.seg == s)
  }

  /** Exactly the lookups that led into segment s have come to nothing. */
  ghost predicate LostAll(w: World, w': World, s: nat)
    requires w.Sound() && w'.Sound()
  {
    forall k :: w'.Look(k) == if w.Look(k).Some? && w.Look(k).value.seg == s then None else w.Look(k)
  }

  /** Lookups that led into dead segments may have come to nothing; the others are as they were. */
  ghost predicate LostIn(w: World, w': World, dead: seq<bool>)
    requires w.Sound() && w'.Sound() && |dead| == |w.mem|
  {
    forall k :: || w'.Look(k) == w.Look(k)
                || (w'.Look(k) == None && w.Look(k).Some? && dead[w.Look(k).value.seg])
  }

  lemma LostInMore(w0: World, w: World, w': World, s: nat, dead: seq<bool>)
    requires w0.Sound() && w.Sound() && w'.Sound() && |dead| == |w.mem| == |w0.mem|
    requires s < |w.mem| && dead[s] && LostIn(w0, w, dead) && LostAll(w, w', s)
    ensures LostIn(w0, w', dead)
  {
  }

  lemma LostInSelf(w: World, dead: seq<bool>)
    requires w.Sound() && |dead| == |w.mem|
    ensures LostIn(w, w, dead)
  {
  }

  lemma LostInTrans(w0: World, w1: World, w2: World, dead: seq<bool>)
    requires w0.Sound() && w1.Sound() && w2.Sound() && |dead| == |w0.mem| == |w1.mem|
    requires LostIn(w0, w1, dead) && LostIn(w1, w2, dead)
    ensures LostIn(w0, w2, dead)
  {
  }

  lemma LostVacant(w: World, w': World, s: nat)
    requires w.Sound() && w'.Sound() && LostOnly(w, w', s) && Vacant(w', s)
    ensures LostAll(w, w', s)
  {
    forall k ensures w'.Look(k) == if w.Look(k).Some? && w.Look(k).value.seg == s then None else w.Look(k) {
      if w'.Look(k).Some? {
        LookNamed(w', k);
      }
    }
  }

  /** A lookup ends at an entry of the index. */
  lemma LookNamed(w: World, k: Key)
    requires w.Sound() && w.Look(k).Some?
    ensures !Unnamed(w.t, w.Look(k).value)
  {
    var b := BucketFor(w.hs, |w.t|, k);
    var f := FirstHitFrom(w.mem, k, w.hs.g(k), w.t[b], 0);
    assert w.t[b][f].Entry? && w.t[b][f].loc == w.Look(k).value;
  }

  // ---------------------------------------------------------------------------
  // Deleted bits
  // ---------------------------------------------------------------------------

  /** No two slots share an item, and no item with a slot, or waiting for one, carries the deleted bit. */
  ghost predicate MarksOk(t: seq<Chain>, pending: Chain, del: set<Loc>) {
    && (forall b :: 0 <= b < |t| ==> Distinct(t[b]))
    && (forall b, i :: 0 <= b < |t| && 0 <= i < |t[b]| && t[b][i].Entry? ==> t[b][i].loc !in del)
    && (forall i :: 0 <= i < |pending| && pending[i].Entry? ==> pending[i].loc !in del)
  }

  /** Entries of different chains name different items. */
  lemma ChainsApart(w: World, b: nat, i: nat, b': nat, i': nat)
    requires w.Sound() && b < |w.t| && i < |w.t[b]| && b' < |w.t| && i' < |w.t[b']| && b != b'
    requires w.t[b][i].Entry? && w.t[b'][i'].Entry?
    ensures w.t[b][i].loc != w.t[b'][i'].loc
  {
    assert Good(w.mem, w.ends, w.hs, |w.t|, b, w.t[b][i]);
    assert Good(w.mem, w.ends, w.hs, |w.t|, b', w.t[b'][i']);
  }

  /** c' is c with some slots emptied, save that position p holds x. */
  ghost predicate OnceAt(c': Chain, c: Chain, x: Slot, p: nat) {
    && |c| <= |c'|
    && forall i :: 0 <= i < |c'| && c'[i].Entry? ==> (i == p && c'[i] == x) || (i != p && i < |c| && c'[i] == c[i])
  }

  /** Items that lose their slot are marked, and only they. */
  lemma MarksStep(w: World, del: set<Loc>, b: nat, c': Chain, x: Slot, p: nat, pending': Chain)
    requires w.Sound() && MarksOk(w.t, w.pending, del) && b < |w.t| && OnceAt(c', w.t[b], x, p)
    requires x.Entry? ==> Unnamed(w.t, x.loc) && x.loc !in del
    requires forall i :: 0 <= i < |pending'| && pending'[i].Entry? ==> i < |w.pending| && pending'[i] == w.pending[i]
    ensures MarksOk(w.t[b := c'], pending', del + Dropped(w.t[b], c'))
  {
    var t': seq<Chain>, del', c := w.t[b := c'], del + Dropped(w.t[b], c'), w.t[b];
    assert Distinct(c);
    forall b', i | 0 <= b' < |t'| && 0 <= i < |t'[b']| && t'[b'][i].Entry? ensures t'[b'][i].loc !in del' {
      forall m | 0 <= m < |c| && c[m].Entry? && c'[m] != c[m] ensures c[m].loc != t'[b'][i].loc {
        if b' != b {
          ChainsApart(w, b, m, b', i);
        }
      }
    }
    forall i | 0 <= i < |pending'| && pending'[i].Entry? ensures pending'[i].loc !in del' {
      assert Unnamed(w.t, w.pending[i].loc);
    }
  }

  lemma MarksSame(t: seq<Chain>, pending: Chain, del: set<Loc>, b: nat, c': Chain)
    requires MarksOk(t, pending, del) && b < |t| && SameButFreq(t[b], c')
    ensures MarksOk(t[b := c'], pending, del)
  {
    assert Distinct(t[b]);
  }

  lemma ShrinksOnce(mem: seq<Cells>, key: Key, tag: nat, c: Chain, l: Loc)
    requires Backed(mem, c)
    ensures OnceAt(Deleted(mem, key, tag, c), c, Empty, |c|) && OnceAt(Evicted(mem, key, tag, c, l), c, Empty, |c|)
  {
  }

  /** An insert puts the new entry in one place. */
  lemma InsertedOnce(mem: seq<Cells>, key: Key, tag: nat, c: Chain, l: Loc) returns (p: nat)
    requires Backed(mem, c) && |c| % 7 == 0 && |c| > 0
    ensures OnceAt(Inserted(mem, key, tag, c, l), c, Entry(tag, 0, l), p)
  {
    p := FirstSpotFrom(mem, key, tag, c, 0);
  }

  lemma RelinkedOnce(mem: seq<Cells>, key: Key, tag: nat, c: Chain, l: Loc, l': Loc) returns (p: nat)
    requires Backed(mem, c)
    ensures Find(mem, key, tag, c) == Some(l) ==> OnceAt(Relinked(mem, key, tag, c, l, l'), c, Entry(tag, 0, l'), p)
    ensures Find(mem, key, tag, c) != Some(l) ==> OnceAt(Relinked(mem, key, tag, c, l, l'), c, Empty, |c|)
  {
    p := FirstHitFrom(mem, key, tag, c, 0);
  }

  // ---------------------------------------------------------------------------
  // Appending an item to a segment
  // ---------------------------------------------------------------------------

  /** Memory with an item written behind those of segment s. */
  function Written(mem: seq<Cells>, s: nat, e: nat, it: Item): (mem': seq<Cells>)
    requires s < |mem|
    ensures |mem'| == |mem| && InMem(mem', Loc(s, e)) && ItemAt(mem', Loc(s, e)) == it
  {
    mem[s := WriteItem(mem[s], e, it)]
  }

  /** Appending disturbs nothing, whether or not the item then becomes part of the segment. */
  lemma SoundAppend(w: World, s: nat, segSize: nat, it: Item, grow: bool, e: nat, e': nat, w': World)
    requires w.Sound() && s < |w.mem| && ItemOk(it) && e == w.ends[s]
    requires SegTiled(w.mem[s], segSize, e, e) && e + ItemSize(it) <= segSize
    requires e' == if grow then e + ItemSize(it) else e
    requires w' == w.(mem := Written(w.mem, s, e, it), ends := w.ends[s := e'])
    ensures w'.Sound()
    ensures forall k :: w'.Look(k) == w.Look(k)
    ensures SegTiled(w'.mem[s], segSize, e', e')
    ensures grow ==> AtStart(w'.mem, w'.ends, Loc(s, e))
    ensures Unnamed(w.t, Loc(s, e))
    ensures forall i :: 0 <= i < |w.pending| && w.pending[i].Entry? ==> w.pending[i].loc != Loc(s, e)
  {
    var c' := WriteItem(w.mem[s], e, it);
    if grow {
      WriteExtends(w.mem[s], segSize, e, it, c', e');
      assert IsStart(c', 0, e', e);
    } else {
      TilesFrame(w.mem[s], c', 0, e);
    }
    KeepsAbove(w, s, c', e');
    SoundKeeps(w, w.mem[s := c'], w.ends[s := e']);
    NotNamedYet(w, Loc(s, e));
  }

  // ---------------------------------------------------------------------------
  // Merging: what becomes of each key
  // ---------------------------------------------------------------------------

  /** The part of the merge that is done: whole segments, and segment src up to offset a. */
  datatype Done = Done(gone: set<nat>, src: nat, a: nat) {
    predicate Has(l: Loc) { l.seg in gone || (l.seg == src && l.off < a) }
  }

  /**
   * Where the merge copies to, how large segments are, which items it wants to keep, and how far
   * the merged segment is filled when it comes to each of the segments.
   */
  datatype Plan = Plan(dest: nat, segSize: nat, keep: Loc -> bool, base: map<int, nat>)

  /** What the item at l adds to a merged segment filled up to f: its size, if it is current, wanted and fits. */
  ghost function Gain(w0: World, segSize: nat, keep: Loc -> bool, l: Loc, f: nat): (g: nat)
    requires w0.Sound()
    ensures f <= segSize ==> f + g <= segSize
  {
    if InMem(w0.mem, l) && w0.Look(ItemAt(w0.mem, l).key) == Some(l) && keep(l) &&
       f + ItemSize(ItemAt(w0.mem, l)) <= segSize
    then ItemSize(ItemAt(w0.mem, l)) else 0
  }

  /** A copy of segment s from offset a on, into a merged segment filled up to f, comes to offset t. */
  ghost function FillTo(w0: World, segSize: nat, keep: Loc -> bool, s: nat, a: nat, f: nat, t: nat): nat
    requires w0.Sound() && s < |w0.mem| && Tiles(w0.mem[s], a, w0.ends[s])
    decreases w0.ends[s] - a
  {
    if a == w0.ends[s] || a == t then f
    else
      FillTo(w0, segSize, keep, s, a + ItemSize(w0.mem[s][a].item), f + Gain(w0, segSize, keep, Loc(s, a), f), t)
  }

  /** The segments qs are tiled by their items. */
  ghost predicate TiledAll(w0: World, qs: seq<int>) {
    |w0.ends| == |w0.mem| && forall i :: 0 <= i < |qs| ==> TiledSeg(w0, qs[i])
  }

  ghost predicate TiledSeg(w0: World, s: int) {
    0 <= s < |w0.mem| && |w0.ends| == |w0.mem| && Tiles(w0.mem[s], 0, w0.ends[s])
  }

  /** How far the merged segment is filled when the first n of segments qs have been copied. */
  ghost function Level(w0: World, segSize: nat, keep: Loc -> bool, qs: seq<int>, n: nat): nat
    requires w0.Sound() && n <= |qs| && TiledAll(w0, qs)
  {
    if n == 0 then 0
    else
      assert TiledSeg(w0, qs[n - 1]);
      FillTo(w0, segSize, keep, qs[n - 1], 0, Level(w0, segSize, keep, qs, n - 1), w0.ends[qs[n - 1]])
  }

  /** How many of segments qs, of which i are merged already, a merge takes until `stop` bytes are reached. */
  ghost function Needed(w0: World, segSize: nat, keep: Loc -> bool, qs: seq<int>, stop: int, i: nat): (m: nat)
    requires w0.Sound() && i <= |qs| && TiledAll(w0, qs)
    ensures i <= m <= |qs|
    ensures forall k :: i <= k < m ==> Level(w0, segSize, keep, qs, k) < stop
    ensures m == |qs| || Level(w0, segSize, keep, qs, m) >= stop
    decreases |qs| - i
  {
    if i == |qs| || Level(w0, segSize, keep, qs, i) >= stop then i else Needed(w0, segSize, keep, qs, stop, i + 1)
  }

  lemma NeededIs(w0: World, segSize: nat, keep: Loc -> bool, qs: seq<int>, stop: int, m: nat)
    requires w0.Sound() && m <= |qs| && TiledAll(w0, qs)
    requires forall k :: 0 <= k < m ==> Level(w0, segSize, keep, qs, k) < stop
    requires m == |qs| || Level(w0, segSize, keep, qs, m) >= stop
    ensures Needed(w0, segSize, keep, qs, stop, 0) == m
  {
    hide World.Sound, Level, TiledAll;
  }

  /** Stores in which the items of segment s are the same, and equally current, fill up alike. */
  lemma {:induction false} FillSame(w: World, w': World, segSize: nat, keep: Loc -> bool, s: nat, a: nat, f: nat,
                                    t: nat)
    requires w.Sound() && w'.Sound() && s < |w.mem| == |w'.mem| == |w.ends| == |w'.ends|
    requires w'.mem[s] == w.mem[s] && w'.ends[s] == w.ends[s]
    requires Tiles(w.mem[s], a, w.ends[s]) && forall k :: w'.Look(k) == w.Look(k)
    ensures FillTo(w', segSize, keep, s, a, f, t) == FillTo(w, segSize, keep, s, a, f, t)
    decreases w.ends[s] - a
  {
    hide World.Sound, World.Look;
    if a != w.ends[s] && a != t {
      FillSame(w, w', segSize, keep, s, a + ItemSize(w.mem[s][a].item), f + Gain(w, segSize, keep, Loc(s, a), f), t);
    }
  }

  lemma {:induction false} LevelSame(w: World, w': World, segSize: nat, keep: Loc -> bool, qs: seq<int>, n: nat)
    requires w.Sound() && w'.Sound() && |w.mem| == |w'.mem| == |w.ends| == |w'.ends| && n <= |qs| && TiledAll(w, qs)
    requires forall i :: 0 <= i < |qs| ==>
               0 <= qs[i] < |w.mem| && w'.mem[qs[i]] == w.mem[qs[i]] && w'.ends[qs[i]] == w.ends[qs[i]]
    requires forall k :: w'.Look(k) == w.Look(k)
    ensures TiledAll(w', qs) && Level(w', segSize, keep, qs, n) == Level(w, segSize, keep, qs, n)
  {
    hide World.Sound, World.Look, FillTo;
    forall i | 0 <= i < |qs| ensures TiledSeg(w', qs[i]) {
      assert TiledSeg(w, qs[i]);
    }
    if n > 0 {
      LevelSame(w, w', segSize, keep, qs, n - 1);
      assert TiledSeg(w, qs[n - 1]);
      FillSame(w, w', segSize, keep, qs[n - 1], 0, Level(w, segSize, keep, qs, n - 1), w.ends[qs[n - 1]]);
    }
  }

  lemma NeededSame(w: World, w': World, segSize: nat, keep: Loc -> bool, qs: seq<int>, stop: int)
    requires w.Sound() && w'.Sound() && |w.mem| == |w'.mem| == |w.ends| == |w'.ends| && TiledAll(w, qs)
    requires forall i :: 0 <= i < |qs| ==>
               0 <= qs[i] < |w.mem| && w'.mem[qs[i]] == w.mem[qs[i]] && w'.ends[qs[i]] == w.ends[qs[i]]
    requires forall k :: w'.Look(k) == w.Look(k)
    ensures TiledAll(w', qs) && Needed(w', segSize, keep, qs, stop, 0) == Needed(w, segSize, keep, qs, stop, 0)
    ensures var m := Needed(w, segSize, keep, qs, stop, 0);
            Level(w', segSize, keep, qs, m) == Level(w, segSize, keep, qs, m)
  {
    hide World.Sound, World.Look, Level, Needed, TiledAll;
    var m := Needed(w, segSize, keep, qs, stop, 0);
    forall k | 0 <= k <= |qs|
      ensures TiledAll(w', qs) && Level(w', segSize, keep, qs, k) == Level(w, segSize, keep, qs, k)
    {
      LevelSame(w, w', segSize, keep, qs, k);
    }
    LevelSame(w, w', segSize, keep, qs, m);
    NeededIs(w', segSize, keep, qs, stop, m);
  }

  /** The levels by segment. */
  ghost function Levels(w0: World, segSize: nat, keep: Loc -> bool, qs: seq<int>, n: nat): (base: map<int, nat>)
    requires w0.Sound() && n <= |qs| && TiledAll(w0, qs)
    ensures forall s :: s in base ==> exists i :: 0 <= i < n && qs[i] == s
  {
    if n == 0 then map[]
    else Levels(w0, segSize, keep, qs, n - 1)[qs[n - 1] := Level(w0, segSize, keep, qs, n - 1)]
  }

  lemma {:induction false} LevelsAre(w0: World, segSize: nat, keep: Loc -> bool, qs: seq<int>, n: nat, i: nat)
    requires w0.Sound() && i < n <= |qs| && TiledAll(w0, qs)
    requires forall i, j :: 0 <= i < j < |qs| ==> qs[i] != qs[j]
    ensures qs[i] in Levels(w0, segSize, keep, qs, n)
    ensures Levels(w0, segSize, keep, qs, n)[qs[i]] == Level(w0, segSize, keep, qs, i)
  {
    hide World.Sound, World.Look, FillTo, Level, TiledSeg;
    if i < n - 1 {
      LevelsAre(w0, segSize, keep, qs, n - 1, i);
    }
  }

  /** How far the merged segment is filled when the merge comes to l. */
  ghost function Reach(w0: World, p: Plan, l: Loc): nat
    requires w0.Sound()
  {
    if l.seg < |w0.mem| && l.seg in p.base && Tiles(w0.mem[l.seg], 0, w0.ends[l.seg])
    then FillTo(w0, p.segSize, p.keep, l.seg, 0, p.base[l.seg], l.off) else 0
  }

  /** A copy is at the beginning of an item, or at the end. */
  ghost predicate Boundary(c: Cells, e: nat, a: nat)
    requires Tiles(c, 0, e)
  {
    a == e || IsStart(c, 0, e, a)
  }

  lemma {:induction false} BoundaryStep(c: Cells, b: nat, e: nat, a: nat)
    requires Tiles(c, b, e) && IsStart(c, b, e, a)
    ensures HasItem(c, a)
    ensures var a' := a + ItemSize(c[a].item);
            a' == e || IsStart(c, b, e, a')
    decreases e - b
  {
    if a != b {
      BoundaryStep(c, b + ItemSize(c[b].item), e, a);
    }
  }

  lemma {:induction false} FillStep(w0: World, segSize: nat, keep: Loc -> bool, s: nat, b: nat, f: nat, a: nat)
    requires w0.Sound() && s < |w0.mem| && Tiles(w0.mem[s], b, w0.ends[s]) && IsStart(w0.mem[s], b, w0.ends[s], a)
    ensures HasItem(w0.mem[s], a)
    ensures var f' := FillTo(w0, segSize, keep, s, b, f, a);
            FillTo(w0, segSize, keep, s, b, f, a + ItemSize(w0.mem[s][a].item))
            == f' + Gain(w0, segSize, keep, Loc(s, a), f')
    decreases w0.ends[s] - b
  {
    hide World.Look, Gain;
    StartHasItem(w0.mem[s], b, w0.ends[s], a);
    if a != b {
      FillStep(w0, segSize, keep, s, b + ItemSize(w0.mem[s][b].item), f + Gain(w0, segSize, keep, Loc(s, b), f), a);
    }
  }

  /** Passing an item adds to the merged segment what it gains. */
  lemma ReachStep(w0: World, p: Plan, s: nat, a: nat)
    requires w0.Sound() && s < |w0.mem| && s in p.base && Tiles(w0.mem[s], 0, w0.ends[s])
    requires IsStart(w0.mem[s], 0, w0.ends[s], a)
    ensures HasItem(w0.mem[s], a) && Boundary(w0.mem[s], w0.ends[s], a + ItemSize(w0.mem[s][a].item))
    ensures var f := Reach(w0, p, Loc(s, a));
            Reach(w0, p, Loc(s, a + ItemSize(w0.mem[s][a].item))) == f + Gain(w0, p.segSize, p.keep, Loc(s, a), f)
  {
    FillStep(w0, p.segSize, p.keep, s, 0, p.base[s], a);
    BoundaryStep(w0.mem[s], 0, w0.ends[s], a);
  }

  lemma ReachStart(w0: World, p: Plan, s: nat)
    requires w0.Sound() && s < |w0.mem| && s in p.base && Tiles(w0.mem[s], 0, w0.ends[s])
    ensures Reach(w0, p, Loc(s, 0)) == p.base[s] && Boundary(w0.mem[s], w0.ends[s], 0)
  {
  }

  /**
   * What a lookup of k gives in w, when the merge began in w0. A key whose item was not reached
   * yet is where it was, byte for byte. Of the others, those to be kept lead to an equal copy, at
   * the place up to which the merged segment was filled then, if it fitted there; the rest is gone.
   */
  ghost predicate Outcome(w0: World, w: World, k: Key, d: Done, p: Plan)
    requires w0.Sound() && w.Sound() && p.dest < |w.ends|
  {
    match w0.Look(k)
    case None => w.Look(k) == None
    case Some(l) =>
      if !d.Has(l) then
        w.Look(k) == Some(l) && ItemAt(w.mem, l) == ItemAt(w0.mem, l)
      else if p.keep(l) && Reach(w0, p, l) + ItemSize(ItemAt(w0.mem, l)) <= p.segSize then
        && w.Look(k) == Some(Loc(p.dest, Reach(w0, p, l)))
        && ItemAt(w.mem, w.Look(k).value) == ItemAt(w0.mem, l)
      else
        w.Look(k) == None
  }

  ghost predicate Progress(w0: World, w: World, d: Done, p: Plan)
    requires w0.Sound() && w.Sound() && p.dest < |w.ends|
  {
    forall k :: Outcome(w0, w, k, d, p)
  }

  /** The next item of src is at a and has size sz; a key that is still at src beyond a is beyond that item. */
  lemma NextStart(w: World, src: nat, a: nat, k: Key)
    requires w.Sound() && Ahead(w, src, a) && a < w.ends[src] && HasItem(w.mem[src], a)
    requires w.Look(k).Some? && w.Look(k).value.seg == src && w.Look(k).value != Loc(src, a)
    ensures w.Look(k).value.off >= a + ItemSize(w.mem[src][a].item)
  {
    var l := w.Look(k).value;
    LookNamed(w, k);
    var b, i :| 0 <= b < |w.t| && 0 <= i < |w.t[b]| && w.t[b][i].Entry? && w.t[b][i].loc == l;
    assert IsStart(w.mem[src], a, w.ends[src], l.off);
    StartHasItem(w.mem[src], a + ItemSize(w.mem[src][a].item), w.ends[src], l.off);
  }

  /** An item that was not reached yet is current just if it was when the merge began. */
  lemma CurrentSame(w0: World, w: World, d: Done, p: Plan, l: Loc, it: Item)
    requires w0.Sound() && w.Sound() && p.dest < |w.ends| && Progress(w0, w, d, p) && l.seg != p.dest && !d.Has(l)
    ensures w.Look(it.key) == Some(l) <==> w0.Look(it.key) == Some(l)
  {
    assert Outcome(w0, w, it.key, d, p);
  }

  /** The item at a was evicted: it was not to be kept, or did not fit. */
  lemma ProgressEvict(w0: World, w: World, w': World, d: Done, d': Done, p: Plan, it: Item)
    requires w0.Sound() && w.Sound() && w'.Sound() && p.dest < |w.ends| && Progress(w0, w, d, p)
    requires Ahead(w, d.src, d.a) && d.a < w.ends[d.src] && HasItem(w.mem[d.src], d.a) && w.mem[d.src][d.a].item == it
    requires d.src != p.dest && d.src !in d.gone && d' == d.(a := d.a + ItemSize(it))
    requires w'.mem == w.mem && w'.ends == w.ends
    requires var l := Loc(d.src, d.a);
             forall k :: w'.Look(k) == if k == it.key && w.Look(it.key) == Some(l) then None else w.Look(k)
    requires InMem(w0.mem, Loc(d.src, d.a)) && ItemAt(w0.mem, Loc(d.src, d.a)) == it
    requires w.ends[p.dest] == Reach(w0, p, Loc(d.src, d.a))
    requires var l := Loc(d.src, d.a);
             w.Look(it.key) == Some(l) ==> !p.keep(l) || w.ends[p.dest] + ItemSize(it) > p.segSize
    ensures Progress(w0, w', d', p)
    ensures Gain(w0, p.segSize, p.keep, Loc(d.src, d.a), w.ends[p.dest]) == 0
  {
    hide Reach, World.Sound, World.Look, Ahead, Tiles;
    var l := Loc(d.src, d.a);
    CurrentSame(w0, w, d, p, l, it);
    forall k ensures Outcome(w0, w', k, d', p) {
      assert Outcome(w0, w, k, d, p);
      if w0.Look(k).Some? && d'.Has(w0.Look(k).value) && !d.Has(w0.Look(k).value) {
        if w0.Look(k).value != l {
          NextStart(w, d.src, d.a, k);
        }
      }
    }
  }

  /** The item at a was copied to the merged segment, if it was current. */
  lemma ProgressCopy(w0: World, w: World, w': World, d: Done, d': Done, p: Plan, it: Item, current: bool)
    requires w0.Sound() && w.Sound() && w'.Sound() && p.dest < |w.ends| == |w'.ends| && Progress(w0, w, d, p)
    requires Ahead(w, d.src, d.a) && d.a < w.ends[d.src] && HasItem(w.mem[d.src], d.a) && w.mem[d.src][d.a].item == it
    requires d.src != p.dest && d.src !in d.gone && d' == d.(a := d.a + ItemSize(it))
    requires Tiles(w.mem[p.dest], 0, w.ends[p.dest]) && p.keep(Loc(d.src, d.a))
    requires InMem(w0.mem, Loc(d.src, d.a)) && ItemAt(w0.mem, Loc(d.src, d.a)) == it
    requires w.ends[p.dest] == Reach(w0, p, Loc(d.src, d.a)) && w.ends[p.dest] + ItemSize(it) <= p.segSize
    requires w'.mem == Written(w.mem, p.dest, w.ends[p.dest], it) && w'.ends[p.dest] >= w.ends[p.dest]
    requires current <==> w.Look(it.key) == Some(Loc(d.src, d.a))
    requires forall k :: w'.Look(k) == if k == it.key && current then Some(Loc(p.dest, w.ends[p.dest])) else w.Look(k)
    ensures Progress(w0, w', d', p)
    ensures Gain(w0, p.segSize, p.keep, Loc(d.src, d.a), w.ends[p.dest]) == if current then ItemSize(it) else 0
  {
    hide Reach, World.Sound, World.Look, Ahead, Tiles, WriteItem;
    var l, e := Loc(d.src, d.a), w.ends[p.dest];
    CurrentSame(w0, w, d, p, l, it);
    forall k ensures Outcome(w0, w', k, d', p) {
      assert Outcome(w0, w, k, d, p);
      if w.Look(k).Some? {
        SameAfterWrite(w, k, p.dest, it);
      }
      if w0.Look(k).Some? && d'.Has(w0.Look(k).value) && !d.Has(w0.Look(k).value) {
        if w0.Look(k).value != l {
          NextStart(w, d.src, d.a, k);
        }
      }
    }
  }

  /** A segment that nothing refers to any more is done with. */
  lemma ProgressDone(w0: World, w: World, d: Done, p: Plan)
    requires w0.Sound() && w.Sound() && p.dest < |w.ends| && Progress(w0, w, d, p) && Vacant(w, d.src)
    ensures Progress(w0, w, Done(d.gone + {d.src}, d.src, 0), p)
  {
    var d' := Done(d.gone + {d.src}, d.src, 0);
    forall k ensures Outcome(w0, w, k, d', p) {
      assert Outcome(w0, w, k, d, p);
      if w.Look(k).Some? {
        LookNamed(w, k);
      }
    }
  }

  /** The item a key leads to is not marked deleted. */
  lemma CurrentUnmarked(w: World, del: set<Loc>, k: Key)
    requires w.Sound() && MarksOk(w.t, w.pending, del) && w.Look(k).Some?
    ensures w.Look(k).value !in del
  {
    LookNamed(w, k);
  }

  lemma AheadTiles(w: World, s: nat, a: nat)
    requires Ahead(w, s, a)
    ensures s < |w.mem| == |w.ends| && a <= w.ends[s] && Tiles(w.mem[s], a, w.ends[s])
  {
  }

  /** Appending to a segment leaves the item a key leads to as it is. */
  lemma SameAfterWrite(w: World, k: Key, s: nat, it: Item)
    requires w.Sound() && s < |w.mem| && w.Look(k).Some?
    ensures var l := w.Look(k).value;
            && InMem(Written(w.mem, s, w.ends[s], it), l)
            && ItemAt(Written(w.mem, s, w.ends[s], it), l) == ItemAt(w.mem, l)
  {
    var l := w.Look(k).value;
    LookNamed(w, k);
    var b, i :| 0 <= b < |w.t| && 0 <= i < |w.t[b]| && w.t[b][i].Entry? && w.t[b][i].loc == l;
    assert Good(w.mem, w.ends, w.hs, |w.t|, b, w.t[b][i]);
    StartHasItem(w.mem[l.seg], 0, w.ends[l.seg], l.off);
  }

  lemma ProgressStart(w: World, src: nat, p: Plan)
    requires w.Sound() && p.dest < |w.ends|
    ensures Progress(w, w, Done({}, src, 0), p)
  {
  }

  /** Progress is about items and lookups; other changes do not matter to it. */
  lemma ProgressSame(w0: World, w: World, w': World, d: Done, src: nat, p: Plan)
    requires w0.Sound() && w.Sound() && w'.Sound() && p.dest < |w.ends| == |w'.ends| && d.a == 0
    requires Progress(w0, w, d, p) && w'.ends[p.dest] == w.ends[p.dest] && |w'.mem| == |w.mem|
    requires SameLooks(w, w')
    ensures Progress(w0, w', Done(d.gone, src, 0), p)
  {
    var d' := Done(d.gone, src, 0);
    forall k ensures Outcome(w0, w', k, d', p) {
      assert Outcome(w0, w, k, d, p);
    }
  }

  /** A segment without items has nothing that refers to it. */
  lemma EmptyVacant(w: World, s: nat)
    requires w.Sound() && s < |w.mem| && w.ends[s] == 0
    ensures Vacant(w, s)
  {
    forall b, i | 0 <= b < |w.t| && 0 <= i < |w.t[b]| && w.t[b][i].Entry? ensures w.t[b][i].loc.seg != s {
      assert Good(w.mem, w.ends, w.hs, |w.t|, b, w.t[b][i]);
    }
  }

  /** Some key leads into segment s. */
  ghost predicate Inhabited(w: World, s: nat)
    requires w.Sound()
  {
    exists k :: w.Look(k).Some? && w.Look(k).value.seg == s
  }

  lemma InhabitedEvict(w: World, w': World, s: nat, key: Key, l: Loc)
    requires w.Sound() && w'.Sound() && l.seg != s && Inhabited(w, s)
    requires forall k :: w'.Look(k) == if k == key && w.Look(key) == Some(l) then None else w.Look(k)
    ensures Inhabited(w', s)
  {
    var k :| w.Look(k).Some? && w.Look(k).value.seg == s;
    assert w'.Look(k) == w.Look(k);
  }

  lemma InhabitedCopy(w: World, w': World, s: nat, key: Key, e: nat, current: bool)
    requires w.Sound() && w'.Sound() && (current || Inhabited(w, s))
    requires forall k :: w'.Look(k) == if k == key && current then Some(Loc(s, e)) else w.Look(k)
    ensures Inhabited(w', s)
  {
    if current {
      assert w'.Look(key) == Some(Loc(s, e));
    } else {
      var k :| w.Look(k).Some? && w.Look(k).value.seg == s;
      assert w'.Look(k) == w.Look(k);
    }
  }

  lemma InhabitedSame(w: World, w': World, s: nat)
    requires w.Sound() && w'.Sound() && forall k :: w'.Look(k) == w.Look(k)
    ensures Inhabited(w', s) <==> Inhabited(w, s)
  {
    if Inhabited(w, s) {
      var k :| w.Look(k).Some? && w.Look(k).value.seg == s;
      assert w'.Look(k).value.seg == s;
    }
    if Inhabited(w', s) {
      var k :| w'.Look(k).Some? && w'.Look(k).value.seg == s;
      assert w.Look(k).value.seg == s;
    }
  }

  /** Every item is larger than 8 bytes, so a segment with no more live bytes than that has no live item. */
  lemma FewBytesVacant(w: World, s: nat)
    requires w.Sound() && s < |w.mem| && w.bytes[s] <= 8
    ensures Vacant(w, s) && !Inhabited(w, s)
  {
    assert CountedFor(w.mem, w.t, w.pending, w.live, w.bytes, s);
    forall b, i | 0 <= b < |w.t| && 0 <= i < |w.t[b]| && w.t[b][i].Entry? ensures w.t[b][i].loc.seg != s {
      var l := w.t[b][i].loc;
      assert Good(w.mem, w.ends, w.hs, |w.t|, b, w.t[b][i]);
      StartHasItem(w.mem[l.seg], 0, w.ends[l.seg], l.off);
      TotalLoadSome(w.mem, w.t, b, i, s, false);
    }
    forall i | 0 <= i < |w.pending| && w.pending[i].Entry? ensures w.pending[i].loc.seg != s {
      var l := w.pending[i].loc;
      StartHasItem(w.mem[l.seg], 0, w.ends[l.seg], l.off);
      LoadSome(w.mem, w.pending, i, s, false);
    }
    forall k | w.Look(k).Some? ensures w.Look(k).value.seg != s {
      LookNamed(w, k);
    }
  }

  /** A segment that nothing refers to is emptied: nothing else changes. */
  lemma SoundEmptied(w: World, s: nat, w': World)
    requires w.Sound() && s < |w.mem| && Vacant(w, s)
    requires w' == w.(ends := w.ends[s := 0])
    ensures w'.Sound() && SameLooks(w, w') && Vacant(w', s)
    ensures w.live[s] == 0 && w.bytes[s] == 0 && w.wref[s] == 0
  {
    KeepsVacant(w, s, w.mem[s], 0);
    SoundKeeps(w, w.mem[s := w.mem[s]], w.ends[s := 0]);
    assert w.mem[s := w.mem[s]] == w.mem;
    VacantIffZero(w, s);
    WaitingSelf(w, w');
  }

  /** The items waiting to be inserted are the same, on segments of the same age and ttl; there may be more. */
  ghost predicate Waiting(w: World, w': World)
    requires w.Sound() && w'.Sound()
  {
    && |w.mem| == |w'.mem| && |w.pending| <= |w'.pending|
    && forall i :: 0 <= i < |w.pending| ==> SameSlot(w, w', w.pending[i], w'.pending[i])
  }

  ghost predicate SameSlot(w: World, w': World, x: Slot, x': Slot) {
    && x' == x
    && (x.Entry? ==>
          && InMem(w.mem, x.loc) && InMem(w'.mem, x.loc) && ItemAt(w'.mem, x.loc) == ItemAt(w.mem, x.loc)
          && x.loc.seg < |w.at| == |w.ttl| == |w'.at| == |w'.ttl|
          && w'.at[x.loc.seg] == w.at[x.loc.seg] && w'.ttl[x.loc.seg] == w.ttl[x.loc.seg])
  }

  lemma WaitingSelf(w: World, w': World)
    requires w.Sound() && w'.Sound() && w'.mem == w.mem && w'.at == w.at && w'.ttl == w.ttl && w'.pending == w.pending
    ensures Waiting(w, w')
  {
    forall i | 0 <= i < |w.pending| ensures SameSlot(w, w', w.pending[i], w'.pending[i]) {
      assert SlotBacked(w.mem, w.pending[i]);
    }
  }

  lemma WaitingTrans(w0: World, w: World, w': World)
    requires w0.Sound() && w.Sound() && w'.Sound() && Waiting(w0, w) && Waiting(w, w')
    ensures Waiting(w0, w')
  {
    forall i | 0 <= i < |w0.pending| ensures SameSlot(w0, w', w0.pending[i], w'.pending[i]) {
      assert SameSlot(w0, w, w0.pending[i], w.pending[i]);
      assert SameSlot(w, w', w.pending[i], w'.pending[i]);
    }
  }

  /** Changes to a segment that nothing refers to. */
  lemma WaitingVacant(w: World, w': World, s: nat)
    requires w.Sound() && w'.Sound() && s < |w.mem| == |w'.mem| && Vacant(w, s) && w'.pending == w.pending
    requires forall t :: 0 <= t < |w.mem| && t != s ==>
               w'.mem[t] == w.mem[t] && w'.at[t] == w.at[t] && w'.ttl[t] == w.ttl[t]
    ensures Waiting(w, w')
  {
    forall i | 0 <= i < |w.pending| ensures SameSlot(w, w', w.pending[i], w'.pending[i]) {
      assert SlotBacked(w.mem, w.pending[i]);
    }
  }

  /** Memory that keeps what is referred to. */
  lemma WaitingKeeps(w: World, w': World)
    requires w.Sound() && w'.Sound() && Keeps(w, w'.mem, w'.ends)
    requires |w.pending| <= |w'.pending| && w'.pending[..|w.pending|] == w.pending && w'.at == w.at && w'.ttl == w.ttl
    ensures Waiting(w, w')
  {
    forall i | 0 <= i < |w.pending| ensures SameSlot(w, w', w.pending[i], w'.pending[i]) {
      assert w'.pending[i] == w'.pending[..|w.pending|][i];
      if w.pending[i].Entry? {
        assert Stays(w.mem, w'.mem, w'.ends, w.pending[i].loc);
      }
    }
  }

  lemma WaitingAppend(w: World, s: nat, segSize: nat, it: Item, w': World)
    requires w.Sound() && w'.Sound() && s < |w.mem| && SegTiled(w.mem[s], segSize, w.ends[s], w.ends[s])
    requires ItemOk(it) && w.ends[s] + ItemSize(it) <= segSize
    requires w'.mem == Written(w.mem, s, w.ends[s], it) && w'.at == w.at && w'.ttl == w.ttl
    requires |w.pending| <= |w'.pending| && w'.pending[..|w.pending|] == w.pending
    ensures Waiting(w, w')
  {
    forall i | 0 <= i < |w.pending| ensures SameSlot(w, w', w.pending[i], w'.pending[i]) {
      assert w'.pending[i] == w'.pending[..|w.pending|][i];
      if w.pending[i].Entry? {
        var l := w.pending[i].loc;
        assert AtStart(w.mem, w.ends, l);
        StartHasItem(w.mem[l.seg], 0, w.ends[l.seg], l.off);
      }
    }
  }

  /**
   * Every key leads to where it led, and the item there is the same, and of the same age and ttl;
   * so are the items waiting to be inserted.
   */
  ghost predicate SameLooks(w: World, w': World)
    requires w.Sound() && w'.Sound()
  {
    && Waiting(w, w')
    && (forall k :: w'.Look(k) == w.Look(k))
    && (forall k :: w.Look(k).Some? ==> ItemAt(w'.mem, w'.Look(k).value) == ItemAt(w.mem, w.Look(k).value))
    && (forall k :: w.Look(k).Some? ==> var s := w.Look(k).value.seg; w'.at[s] == w.at[s] && w'.ttl[s] == w.ttl[s])
  }

  /** Clearing what lies behind the items of a segment disturbs nothing. */
  lemma SoundSealed(w: World, s: nat, segSize: nat, w': World)
    requires w.Sound() && s < |w.mem| && SegTiled(w.mem[s], segSize, w.ends[s], w.ends[s])
    requires w' == w.(mem := w.mem[s := ZeroFrom(w.mem[s], w.ends[s])])
    ensures w'.Sound() && SameLooks(w, w')
    ensures SegTiled(w'.mem[s], segSize, w.ends[s], w.ends[s])
    ensures forall wo :: wo > segSize ==> SegTiled(w'.mem[s], segSize, wo, w.ends[s])
  {
    var e := w.ends[s];
    var c' := ZeroFrom(w.mem[s], e);
    TilesFrame(w.mem[s], c', 0, e);
    KeepsAbove(w, s, c', e);
    assert w.ends[s := e] == w.ends;
    SoundKeeps(w, w'.mem, w.ends);
    WaitingKeeps(w, w');
    forall k | w.Look(k).Some? ensures ItemAt(w'.mem, w'.Look(k).value) == ItemAt(w.mem, w.Look(k).value) {
      LookNamed(w, k);
      var b, i :| 0 <= b < |w.t| && 0 <= i < |w.t[b]| && w.t[b][i].Entry? && w.t[b][i].loc == w.Look(k).value;
      assert Stays(w.mem, w'.mem, w.ends, w.t[b][i].loc);
    }
  }

  /**
   * Every key still found leads to an item equal to the one it led to before, and on a segment
   * with the same ttl that is no younger.
   */
  ghost predicate OnlyLoses(w: World, w': World)
    requires w.Sound() && w'.Sound()
  {
    forall k :: w'.Look(k).Some? ==> w.Look(k).Some? && NoNewer(w, w', w.Look(k).value, w'.Look(k).value)
  }

  predicate NoNewer(w: World, w': World, l: Loc, l': Loc)
    requires InMem(w.mem, l) && InMem(w'.mem, l') && |w.at| == |w.ttl| == |w.mem| && |w'.at| == |w'.ttl| == |w'.mem|
  {
    && ItemAt(w'.mem, l') == ItemAt(w.mem, l)
    && w'.at[l'.seg] <= w.at[l.seg] && w'.ttl[l'.seg] == w.ttl[l.seg]
  }

  /** The merged segment has the ttl of those merged and is as old as the oldest of them. */
  ghost predicate Inherited(w0: World, w: World, d: Done, dest: nat) {
    && |w0.at| == |w0.ttl| == |w.at| == |w.ttl| == |w0.mem| == |w.mem| && dest < |w.at|
    && w.pending == w0.pending && w.mem == w0.mem[dest := w.mem[dest]]
    && w.at == w0.at[dest := w.at[dest]] && w.ttl == w0.ttl[dest := w.ttl[dest]]
    && forall s :: 0 <= s < |w0.at| && s in d.gone ==> w.at[dest] <= w0.at[s] && w.ttl[dest] == w0.ttl[s]
  }

  /** Keys whose item is not on one of the segments `gone` are where they were; of the others some are lost. */
  ghost predicate LosesIn(w: World, w': World, gone: set<nat>)
    requires w.Sound() && w'.Sound()
  {
    && Waiting(w, w')
    && forall k ::
      match w.Look(k)
      case None => w'.Look(k) == None
      case Some(l) =>
        if l.seg in gone then w'.Look(k).Some? ==> NoNewer(w, w', l, w'.Look(k).value)
        else w'.Look(k) == Some(l) && NoNewer(w, w', l, l) && w'.at[l.seg] == w.at[l.seg]
  }

  lemma LosesOnly(w: World, w': World, gone: set<nat>)
    requires w.Sound() && w'.Sound() && LosesIn(w, w', gone)
    ensures OnlyLoses(w, w')
  {
    forall k | w'.Look(k).Some? ensures w.Look(k).Some? && NoNewer(w, w', w.Look(k).value, w'.Look(k).value) {
      assert w.Look(k).Some?;
    }
  }

  /** A merge never changes what a key stands for, nor makes it live longer: it keeps it or loses it. */
  lemma ProgressLosesIn(w0: World, w: World, gone: set<nat>, p: Plan)
    requires w0.Sound() && w.Sound() && p.dest < |w.ends| && Progress(w0, w, Done(gone, 0, 0), p)
    requires Inherited(w0, w, Done(gone, 0, 0), p.dest) && Vacant(w0, p.dest)
    ensures LosesIn(w0, w, gone)
  {
    var d := Done(gone, 0, 0);
    forall k | w0.Look(k).Some?
      ensures var l := w0.Look(k).value;
              if l.seg in gone then w.Look(k).Some? ==> NoNewer(w0, w, l, w.Look(k).value)
              else w.Look(k) == Some(l) && NoNewer(w0, w, l, l) && w.at[l.seg] == w0.at[l.seg]
    {
      assert Outcome(w0, w, k, d, p);
      LookNamed(w0, k);
    }
    forall k | w0.Look(k) == None ensures w.Look(k) == None {
      assert Outcome(w0, w, k, d, p);
    }
    WaitingVacant(w0, w, p.dest);
  }

  lemma LostAllLosesIn(w: World, w': World, s: nat)
    requires w.Sound() && w'.Sound() && LostAll(w, w', s) && w'.mem == w.mem && w'.at == w.at && w'.ttl == w.ttl
    requires w'.pending == w.pending
    ensures LosesIn(w, w', {s})
  {
    WaitingSelf(w, w');
  }

  /** The age and ttl of a segment that nothing refers to do not matter. */
  lemma SoundAged(w: World, s: nat, at': seq<int>, ttl': seq<int>, w': World)
    requires w.Sound() && s < |w.mem| && Vacant(w, s) && w' == w.(at := at', ttl := ttl')
    requires |at'| == |ttl'| == |w.mem|
    requires forall t :: 0 <= t < |w.mem| && t != s ==> at'[t] == w.at[t] && ttl'[t] == w.ttl[t]
    ensures w'.Sound() && SameLooks(w, w') && Vacant(w', s)
  {
    WaitingVacant(w, w', s);
    forall k | w.Look(k).Some? ensures w.Look(k).value.seg != s {
      LookNamed(w, k);
    }
  }

  lemma LosesInSelf(w: World)
    requires w.Sound()
    ensures LosesIn(w, w, {})
  {
    WaitingSelf(w, w);
  }

  lemma LosesInSame(w0: World, w: World, w': World, gone: set<nat>)
    requires w0.Sound() && w.Sound() && w'.Sound() && LosesIn(w0, w, gone) && SameLooks(w, w')
    ensures LosesIn(w0, w', gone)
  {
    WaitingTrans(w0, w, w');
    forall k | w0.Look(k).Some?
      ensures var l := w0.Look(k).value;
              if l.seg in gone then w'.Look(k).Some? ==> NoNewer(w0, w', l, w'.Look(k).value)
              else w'.Look(k) == Some(l) && NoNewer(w0, w', l, l) && w'.at[l.seg] == w0.at[l.seg]
    {
      assert w'.Look(k) == w.Look(k);
    }
  }

  lemma SameLosesIn(w0: World, w: World, w': World, gone: set<nat>)
    requires w0.Sound() && w.Sound() && w'.Sound() && SameLooks(w0, w) && LosesIn(w, w', gone)
    ensures LosesIn(w0, w', gone)
  {
    WaitingTrans(w0, w, w');
    forall k | w0.Look(k).Some?
      ensures var l := w0.Look(k).value;
              if l.seg in gone then w'.Look(k).Some? ==> NoNewer(w0, w', l, w'.Look(k).value)
              else w'.Look(k) == Some(l) && NoNewer(w0, w', l, l) && w'.at[l.seg] == w0.at[l.seg]
    {
      assert w.Look(k) == w0.Look(k);
    }
  }

  lemma SameLooksSelf(w: World)
    requires w.Sound()
    ensures SameLooks(w, w)
  {
    WaitingSelf(w, w);
  }

  lemma SameLooksTrans(w0: World, w: World, w': World)
    requires w0.Sound() && w.Sound() && w'.Sound() && SameLooks(w0, w) && SameLooks(w, w')
    ensures SameLooks(w0, w')
  {
    WaitingTrans(w0, w, w');
  }
}
