/**
 * The cuckoo store: a table of slots in which a key may live in four places, and a bounded
 * chain of moves makes room when all four are taken.
 */
module Cuckoo {
  import opened Basics

  type Key = seq<Byte>

  datatype Val = Int(n: nat) | Str(s: seq<Byte>)

  /** A slot is empty if its expiry is 0; otherwise it holds an item, expired or not. */
  datatype Slot = Slot(expire: int, cas: nat, key: Key, val: Val)

  /** How many different places a key has, and how often items are moved at most to make room. */
  const D: nat := 4
  const DISPLACE: nat := 2
  const MAX_EXPIRE: int := 0x7FFF_FFFF
  const KEY_MAXLEN: nat := 255

  function VLen(v: Val): nat {
    match v
    case Int(_) => 8
    case Str(s) => |s|
  }

  /**
   * What is left of a value in a slot. The length of a string is kept in one byte, and 0 there marks
   * an integer, which is then whatever number the bytes at that place spell.
   */
  function Stored(v: Val, junk: nat): (x: Val)
    ensures x == v <==> (v.Str? ==> 1 <= |v.s| <= 255)
  {
    match v
    case Int(_) => v
    case Str(s) =>
      assert |s| < 256 ==> s[..|s| % 256] == s;
      if |s| % 256 == 0 then Int(junk) else Str(s[..|s| % 256])
  }

  predicate Live(x: Slot, now: int) { x.expire >= now }

  // ---------------------------------------------------------------------------
  // Places
  // ---------------------------------------------------------------------------

  type Hash = (Key, nat) -> nat

  function Cand(h: Hash, n: nat, key: Key, i: nat): (o: nat)
    requires n > 0
    ensures o < n
  {
    h(key, i) % n
  }

  function Cands(h: Hash, n: nat, key: Key): (q: seq<nat>)
    requires n > 0
    ensures |q| == D && forall i :: 0 <= i < D ==> q[i] < n
  {
    [Cand(h, n, key, 0), Cand(h, n, key, 1), Cand(h, n, key, 2), Cand(h, n, key, 3)]
  }

  /** Live items are in one of their key's places, and no two have the same key. */
  ghost predicate Placed(s: seq<Slot>, h: Hash, now: int) {
    |s| > 0 && forall i :: 0 <= i < |s| && Live(s[i], now) ==> i in Cands(h, |s|, s[i].key)
  }

  ghost predicate Unique(s: seq<Slot>, now: int) {
    forall i, j :: 0 <= i < |s| && 0 <= j < |s| && Live(s[i], now) && Live(s[j], now) && s[i].key == s[j].key ==> i == j
  }

  ghost predicate Has(s: seq<Slot>, now: int, k: Key, i: int) {
    0 <= i < |s| && Live(s[i], now) && s[i].key == k
  }

  /** What key k stands for, wherever in the table that is. */
  ghost function Lookup(s: seq<Slot>, now: int, k: Key): (r: Option<Slot>) {
    if exists i :: Has(s, now, k, i) then
      var i :| Has(s, now, k, i); Some(s[i])
    else None
  }

  lemma LookupIs(s: seq<Slot>, now: int, k: Key, i: int)
    requires Unique(s, now) && Has(s, now, k, i)
    ensures Lookup(s, now, k) == Some(s[i])
  {
  }

  /** Items expire, and that is all that time does. */
  lemma Later(s: seq<Slot>, h: Hash, now: int, now': int, k: Key)
    requires Placed(s, h, now) && Unique(s, now) && now <= now'
    ensures Placed(s, h, now') && Unique(s, now')
    ensures Lookup(s, now', k) == match Lookup(s, now, k)
                                  case None => None
                                  case Some(x) => if Live(x, now') then Some(x) else None
  {
    if i :| Has(s, now, k, i) {
      LookupIs(s, now, k, i);
      if Live(s[i], now') {
        assert Has(s, now', k, i);
        LookupIs(s, now', k, i);
      } else {
        forall j ensures !Has(s, now', k, j) {
          if Has(s, now', k, j) {
            assert Has(s, now, k, j);
          }
        }
      }
    } else {
      forall j ensures !Has(s, now', k, j) {
        if Has(s, now', k, j) {
          assert Has(s, now, k, j);
        }
      }
    }
  }

  // ---------------------------------------------------------------------------
  // Gauges
  // ---------------------------------------------------------------------------

  /** Items, and the bytes of their keys, of their values, and of both. */
  datatype Gauges = Gauges(items: int, keys: int, vals: int, data: int) {
    function Plus(g: Gauges): Gauges { Gauges(items + g.items, keys + g.keys, vals + g.vals, data + g.data) }
    function Minus(g: Gauges): Gauges { Gauges(items - g.items, keys - g.keys, vals - g.vals, data - g.data) }
  }

  const ZERO := Gauges(0, 0, 0, 0)

  function One(x: Slot): Gauges { Gauges(1, |x.key|, VLen(x.val), |x.key| + VLen(x.val)) }

  /** What a slot counts for: expired items count, until their slot is reused. */
  function Weight(x: Slot): Gauges { if x.expire > 0 then One(x) else ZERO }

  function Total(s: seq<Slot>): Gauges {
    if s == [] then ZERO else Total(s[..|s| - 1]).Plus(Weight(s[|s| - 1]))
  }

  lemma {:induction false} TotalUpdate(s: seq<Slot>, i: nat, x: Slot)
    requires i < |s|
    ensures Total(s[i := x]) == Total(s).Minus(Weight(s[i])).Plus(Weight(x))
  {
    hide Weight;
    var m, s' := |s| - 1, s[i := x];
    if i == m {
      assert s'[..m] == s[..m];
    } else {
      TotalUpdate(s[..m], i, x);
      assert s'[..m] == s[..m][i := x] && s'[m] == s[m];
    }
  }

  // ---------------------------------------------------------------------------
  // A chain of moves
  // ---------------------------------------------------------------------------

  function Cleared(x: Slot): Slot { x.(expire := 0) }

  /** Items move one step along the path, from its end on; the first slot is then empty. */
  function Moved(s: seq<Slot>, path: seq<nat>, m: nat): (s': seq<Slot>)
    requires m < |path| && forall i :: 0 <= i < |path| ==> path[i] < |s|
    ensures |s'| == |s|
    decreases m
  {
    if m == 0 then s[path[0] := Cleared(s[path[0]])]
    else Moved(s[path[m] := s[path[m - 1]]], path, m - 1)
  }

  /** Every slot of the path but the last holds a live item, which may move to the next slot. */
  ghost predicate IsPath(s: seq<Slot>, h: Hash, now: int, path: seq<nat>) {
    2 <= |path| <= DISPLACE + 1 && |s| > 0 && (forall i :: 0 <= i < |path| ==> path[i] < |s|) &&
    forall i :: 0 <= i < |path| - 1 ==> Step(s, h, now, path[i], path[i + 1])
  }

  ghost predicate Step(s: seq<Slot>, h: Hash, now: int, a: nat, b: nat)
    requires a < |s|
  {
    Live(s[a], now) && b in Cands(h, |s|, s[a].key)
  }

  /** No place of key k is free. */
  ghost predicate Full(s: seq<Slot>, h: Hash, now: int, k: Key)
    requires |s| > 0
  {
    forall i :: 0 <= i < D ==> Live(s[Cands(h, |s|, k)[i]], now)
  }

  /** Slot o is the first free place of key k. */
  ghost predicate FirstPlace(s: seq<Slot>, h: Hash, now: int, k: Key, o: nat)
    requires |s| > 0
  {
    var q := Cands(h, |s|, k);
    exists i :: 0 <= i < D && q[i] == o && !Live(s[o], now) && forall j :: 0 <= j < i ==> Live(s[q[j]], now)
  }

  /**
   * The moves that make room in the path's first slot: items step to the first free place of
   * their key, and only if there is none to another one of its places. If no free one is
   * reached in time, the item in the last slot is evicted.
   */
  ghost predicate RoomPath(s: seq<Slot>, h: Hash, now: int, path: seq<nat>, evict: bool) {
    && IsPath(s, h, now, path) && (evict <==> Live(s[path[|path| - 1]], now)) && (evict ==> |path| == DISPLACE + 1)
    && (forall i :: 0 <= i < |path| - 2 ==> Full(s, h, now, s[path[i]].key))
    && (evict ==> Full(s, h, now, s[path[|path| - 2]].key))
    && (!evict ==> FirstPlace(s, h, now, s[path[|path| - 2]].key, path[|path| - 1]))
  }

  /** Which slot the item now in slot i came from. */
  function Source(path: seq<nat>, i: nat): nat
    requires 2 <= |path| <= 3
  {
    var a, b := path[0], path[1];
    if |path| == 2 then (if i == b then a else i)
    else if i == b then (if path[2] == a then b else a)
    else if i == path[2] then b
    else i
  }

  /**
   * After the moves, live items are those there were, save for the one in the path's last slot;
   * each is where it was or has moved to another of its key's places. The path may come back to
   * a slot it has been to.
   */
  lemma MovedSource(s: seq<Slot>, h: Hash, now: int, path: seq<nat>, i: nat)
    requires IsPath(s, h, now, path) && now > 0 && i < |s|
    requires |path| == 2 ==> path[0] != path[1]
    ensures var s' := Moved(s, path, |path| - 1);
            && (i == path[0] ==> s'[i].expire == 0)
            && (i != path[0] ==> Source(path, i) < |s| && s'[i] == s[Source(path, i)])
            && (i != path[0] ==> Source(path, i) != path[|path| - 1])
            && (i != path[0] && Source(path, i) != i ==> Live(s'[i], now) && i in Cands(h, |s|, s'[i].key))
  {
    assert Step(s, h, now, path[0], path[1]);
    if |path| == 2 {
      var s1 := s[path[1] := s[path[0]]];
      assert Moved(s, path, 1) == Moved(s1, path, 0);
    } else {
      assert Step(s, h, now, path[1], path[2]);
      var s1 := s[path[2] := s[path[1]]];
      var s2 := s1[path[1] := s1[path[0]]];
      assert Moved(s, path, 2) == Moved(s1, path, 1) == Moved(s2, path, 0);
    }
  }

  /** Which slot the item of slot j goes to. */
  function Target(path: seq<nat>, j: nat): nat
    requires 2 <= |path| <= 3
  {
    var a, b := path[0], path[1];
    if |path| == 2 then (if j == a then b else j)
    else if path[2] == a then j
    else if j == b then path[2]
    else if j == a then b
    else j
  }

  lemma TargetSource(path: seq<nat>, j: nat)
    requires 2 <= |path| <= 3 && j != path[|path| - 1] && (|path| == 2 ==> path[0] != path[1])
    ensures Target(path, j) != path[0] && Source(path, Target(path, j)) == j
    ensures Target(path, j) == j || Target(path, j) in path
  {
  }

  /** The moves keep placement and uniqueness, and lose at most the item in the path's last slot. */
  lemma MovedKeeps(s: seq<Slot>, h: Hash, now: int, path: seq<nat>, s': seq<Slot>)
    requires IsPath(s, h, now, path) && now > 0 && Placed(s, h, now) && Unique(s, now)
    requires |path| == 2 ==> path[0] != path[1]
    requires s' == Moved(s, path, |path| - 1)
    ensures Placed(s', h, now) && Unique(s', now) && s'[path[0]].expire == 0
    ensures forall k :: Lookup(s', now, k) == if Has(s, now, k, path[|path| - 1]) then None else Lookup(s, now, k)
  {
    forall i | 0 <= i < |s| ensures MovedFact(s, h, now, path, s', i) {
      MovedSource(s, h, now, path, i);
    }
    forall i | 0 <= i < |s'| && Live(s'[i], now) ensures i in Cands(h, |s'|, s'[i].key) {
      assert MovedFact(s, h, now, path, s', i);
    }
    forall i, j | 0 <= i < |s'| && 0 <= j < |s'| && Live(s'[i], now) && Live(s'[j], now) && s'[i].key == s'[j].key
      ensures i == j
    {
      assert MovedFact(s, h, now, path, s', i) && MovedFact(s, h, now, path, s', j);
    }
    assert MovedFact(s, h, now, path, s', path[0]);
    forall k ensures Lookup(s', now, k) == if Has(s, now, k, path[|path| - 1]) then None else Lookup(s, now, k) {
      MovedLookup(s, h, now, path, s', k);
    }
  }

  /** What MovedSource says about slot i. */
  ghost predicate MovedFact(s: seq<Slot>, h: Hash, now: int, path: seq<nat>, s': seq<Slot>, i: nat)
    requires 2 <= |path| <= 3 && i < |s| == |s'| && |s| > 0
  {
    && (i == path[0] ==> s'[i].expire == 0)
    && (i != path[0] ==>
         && Source(path, i) < |s| && s'[i] == s[Source(path, i)] && Source(path, i) != path[|path| - 1]
         && (Source(path, i) != i ==> Live(s'[i], now) && i in Cands(h, |s|, s'[i].key)))
  }

  lemma MovedLookup(s: seq<Slot>, h: Hash, now: int, path: seq<nat>, s': seq<Slot>, k: Key)
    requires IsPath(s, h, now, path) && now > 0 && Unique(s, now) && |s'| == |s| && Unique(s', now)
    requires |path| == 2 ==> path[0] != path[1]
    requires forall i :: 0 <= i < |s| ==> MovedFact(s, h, now, path, s', i)
    ensures Lookup(s', now, k) == if Has(s, now, k, path[|path| - 1]) then None else Lookup(s, now, k)
  {
    var last := path[|path| - 1];
    forall i | Has(s', now, k, i) ensures Has(s, now, k, Source(path, i)) && Source(path, i) != last {
      assert MovedFact(s, h, now, path, s', i);
    }
    if j :| Has(s, now, k, j) {
      LookupIs(s, now, k, j);
      if j != last {
        TargetSource(path, j);
        var i := Target(path, j);
        assert MovedFact(s, h, now, path, s', i);
        assert Has(s', now, k, i);
        LookupIs(s', now, k, i);
      }
    }
  }

  lemma ClearedWeight(x: Slot)
    ensures Weight(Cleared(x)) == ZERO
  {
  }

  /** The moves take off the gauges exactly what the path's last slot counted for. */
  lemma MovedTotal(s: seq<Slot>, h: Hash, now: int, path: seq<nat>)
    requires IsPath(s, h, now, path) && now > 0
    requires |path| == 2 ==> path[0] != path[1]
    ensures Total(Moved(s, path, |path| - 1)) == Total(s).Minus(Weight(s[path[|path| - 1]]))
  {
    hide Weight, One, Total;
    assert Weight(Cleared(s[path[0]])) == Weight(Cleared(s[path[1]])) == ZERO by {
      ClearedWeight(s[path[0]]);
      ClearedWeight(s[path[1]]);
    }
    if |path| == 2 {
      var s1 := s[path[1] := s[path[0]]];
      assert Moved(s, path, 1) == Moved(s1, path, 0);
      TotalUpdate(s, path[1], s[path[0]]);
      TotalUpdate(s1, path[0], Cleared(s1[path[0]]));
    } else {
      var s1 := s[path[2] := s[path[1]]];
      var s2 := s1[path[1] := s1[path[0]]];
      assert Moved(s, path, 2) == Moved(s1, path, 1) == Moved(s2, path, 0);
      TotalUpdate(s, path[2], s[path[1]]);
      TotalUpdate(s1, path[1], s1[path[0]]);
      TotalUpdate(s2, path[0], Cleared(s2[path[0]]));
    }
  }

  // ---------------------------------------------------------------------------
  // Writing one slot
  // ---------------------------------------------------------------------------

  /** An item of a key that is not in the table goes to a free place of that key. */
  lemma StoreKeeps(s: seq<Slot>, h: Hash, now: int, o: nat, x: Slot, s': seq<Slot>)
    requires Placed(s, h, now) && Unique(s, now) && o < |s| && !Live(s[o], now)
    requires o in Cands(h, |s|, x.key) && Lookup(s, now, x.key) == None && s' == s[o := x]
    ensures Placed(s', h, now) && Unique(s', now)
    ensures forall k :: Lookup(s', now, k)
                     == if k == x.key then (if Live(x, now) then Some(x) else None) else Lookup(s, now, k)
  {
    assert forall i :: !Has(s, now, x.key, i);
    assert forall i :: 0 <= i < |s| && i != o && Live(s[i], now) && s[i].key == x.key ==> Has(s, now, x.key, i);
    forall k ensures Lookup(s', now, k)
                  == if k == x.key then (if Live(x, now) then Some(x) else None) else Lookup(s, now, k)
    {
      if k == x.key {
        if Live(x, now) {
          assert Has(s', now, k, o);
          LookupIs(s', now, k, o);
        } else {
          assert forall i :: Has(s', now, k, i) ==> i != o && Has(s, now, k, i);
        }
      } else {
        LookupSame(s, s', now, k);
      }
    }
  }

  /** Slots that do not hold key k, before or after, do not matter to its lookup. */
  lemma LookupSame(s: seq<Slot>, s': seq<Slot>, now: int, k: Key)
    requires |s'| == |s| && Unique(s, now) && Unique(s', now)
    requires forall i :: 0 <= i < |s| && s'[i] != s[i] ==> !Has(s, now, k, i) && !Has(s', now, k, i)
    ensures Lookup(s', now, k) == Lookup(s, now, k)
  {
    if i :| Has(s, now, k, i) {
      assert Has(s', now, k, i);
      LookupIs(s, now, k, i);
      LookupIs(s', now, k, i);
    } else {
      assert forall i :: Has(s', now, k, i) ==> s'[i] == s[i] && Has(s, now, k, i);
    }
  }

  /** A live item is replaced by another one of the same key, or cleared. */
  lemma RewriteKeeps(s: seq<Slot>, h: Hash, now: int, o: nat, x: Slot, s': seq<Slot>)
    requires Placed(s, h, now) && Unique(s, now) && o < |s| && Live(s[o], now) && x.key == s[o].key && s' == s[o := x]
    ensures Placed(s', h, now) && Unique(s', now)
    ensures forall k :: Lookup(s', now, k)
                     == if k == x.key then (if Live(x, now) then Some(x) else None) else Lookup(s, now, k)
  {
    forall k ensures Lookup(s', now, k)
                  == if k == x.key then (if Live(x, now) then Some(x) else None) else Lookup(s, now, k)
    {
      if k == x.key {
        if Live(x, now) {
          assert Has(s', now, k, o);
          LookupIs(s', now, k, o);
        } else {
          assert forall i :: Has(s', now, k, i) ==> Has(s, now, k, i) && i == o;
        }
      } else {
        LookupSame(s, s', now, k);
      }
    }
  }

  // ---------------------------------------------------------------------------
  // The store
  // ---------------------------------------------------------------------------

  class Store {
    const slots: array<Slot>
    const h: Hash
    /** Bytes of a slot, header included. */
    const itemSize: nat
    const casEnabled: bool
    const maxTtl: nat
    /** Which item gives way: the one that expires first, or a random one. */
    const byExpiry: bool

    var now: int
    var casVal: nat
    var gauges: Gauges
    /** What the gauges count too much: items stored with an expiry that marks their slot as empty. */
    ghost var drift: Gauges

    function Overhead(): nat { 6 + if casEnabled then 8 else 0 }

    predicate Fits(key: Key, val: Val) { |key| + VLen(val) + Overhead() <= itemSize }

    ghost predicate Valid()
      reads this, slots
    {
      && now >= 1 && slots.Length > 0
      && Placed(slots[..], h, now) && Unique(slots[..], now) && gauges == Total(slots[..]).Plus(drift)
    }

    ghost function Look(k: Key): Option<Slot>
      reads this, slots
    {
      Lookup(slots[..], now, k)
    }

    constructor (n: nat, h: Hash, itemSize: nat, casEnabled: bool, maxTtl: nat, byExpiry: bool, now: int)
      requires n > 0 && now >= 1
      ensures Valid() && fresh(slots) && slots.Length == n && this.h == h && this.itemSize == itemSize
      ensures this.casEnabled == casEnabled && this.maxTtl == maxTtl && this.byExpiry == byExpiry && this.now == now
      ensures gauges == ZERO == drift && forall k :: Look(k) == None
    {
      hide Placed, Unique, Total, Lookup;
      slots := new Slot[n](_ => Slot(0, 0, [], Int(0)));
      this.h, this.itemSize, this.casEnabled, this.maxTtl, this.byExpiry := h, itemSize, casEnabled, maxTtl, byExpiry;
      this.now, casVal, gauges, drift := now, 0, ZERO, ZERO;
      new;
      EmptyTable(slots[..], h, now);
    }

    /** The item of a key: only four slots are looked at, and yet whatever the table has is found. */
    method Get(key: Key) returns (r: Option<nat>)
      requires Valid()
      ensures r.None? <==> Look(key) == None
      ensures r.Some? ==> r.value < slots.Length && Live(slots[r.value], now) && Look(key) == Some(slots[r.value])
      ensures r.Some? ==> slots[r.value].key == key
    {
      var offset := Cands(h, slots.Length, key);
      for i := 0 to D
        invariant forall j :: 0 <= j < i ==> !Has(slots[..], now, key, offset[j])
      {
        var x := slots[offset[i]];
        if Live(x, now) && x.key == key {
          LookupIs(slots[..], now, key, offset[i]);
          return Some(offset[i]);
        }
      }
      forall i ensures !Has(slots[..], now, key, i) {
        assert Has(slots[..], now, key, i) ==> i in offset;
      }
      return None;
    }

    /** Time goes on: items may expire. */
    method Tick(seconds: nat)
      requires Valid()
      modifies `now
      ensures Valid() && now == old(now) + seconds
      ensures forall k :: Look(k) == match old(Look(k))
                                     case None => None
                                     case Some(x) => if Live(x, now) then Some(x) else None
    {
      forall k ensures Lookup(slots[..], now + seconds, k)
                    == match Look(k) case None => None case Some(x) => if Live(x, now + seconds) then Some(x) else None
      {
        Later(slots[..], h, now, now + seconds, k);
      }
      Later(slots[..], h, now, now + seconds, []);
      now := now + seconds;
    }

    /** One of the places: by policy the first of those that expire first, or a random one. */
    method SelectCandidate(offset: seq<nat>, rnd: nat) returns (o: nat)
      requires |offset| == D && forall i :: 0 <= i < D ==> offset[i] < slots.Length
      ensures o in offset && (!byExpiry ==> o == offset[rnd % D])
      ensures byExpiry ==> exists k :: 0 <= k < D && o == offset[k] && FirstToExpire(slots[..], offset, k)
    {
      o := offset[0];
      if !byExpiry {
        return offset[rnd % D];
      }
      var min := MAX_EXPIRE;
      ghost var k := 0;
      for i := 0 to D
        invariant 0 <= k <= i && k < D && o == offset[k] && min <= MAX_EXPIRE
        invariant min == MAX_EXPIRE ==> k == 0
        invariant min < MAX_EXPIRE ==> slots[o].expire == min
        invariant forall j :: 0 <= j < i && slots[offset[j]].expire < MAX_EXPIRE ==> min <= slots[offset[j]].expire
        invariant forall j :: 0 <= j < k ==> slots[offset[j]].expire > min
      {
        var expire := slots[offset[i]].expire;
        if expire < min {
          min, o, k := expire, offset[i], i;
        }
      }
      assert FirstToExpire(slots[..], offset, k);
    }

    /** The places in the order in which they are to give way. */
    method SortCandidate(offset: seq<nat>, rnd: nat) returns (ordered: seq<nat>)
      requires |offset| == D && forall i :: 0 <= i < D ==> offset[i] < slots.Length
      ensures |ordered| == D && multiset(ordered) == multiset(offset)
      ensures forall i :: 0 <= i < D ==> ordered[i] in offset && ordered[i] < slots.Length
      ensures byExpiry ==> InOrder(slots[..], ordered, -1)
      ensures !byExpiry ==> forall k :: 0 <= k < D ==> ordered[k] == offset[(rnd % D + k) % D]
    {
      if byExpiry {
        ordered := SortByExpiry(slots[..], offset);
      } else {
        ordered := [];
        var j := rnd % D;
        for i := 0 to D
          invariant |ordered| == i && j == (rnd % D + i) % D
          invariant forall k :: 0 <= k < i ==> ordered[k] == offset[(rnd % D + k) % D]
        {
          ordered := ordered + [offset[j]];
          j := (j + 1) % D;
        }
        Rotated(offset, ordered, rnd % D);
      }
      SameMembers(ordered, offset);
    }

    /** The first place that is free, if any. */
    method FirstFree(offset: seq<nat>) returns (i: nat)
      requires |offset| == D && forall i :: 0 <= i < D ==> offset[i] < slots.Length
      ensures i <= D && (i < D ==> !Live(slots[offset[i]], now))
      ensures forall j :: 0 <= j < i ==> Live(slots[offset[j]], now)
    {
      i := 0;
      while i < D && Live(slots[offset[i]], now)
        invariant i <= D && forall j :: 0 <= j < i ==> Live(slots[offset[j]], now)
      {
        i := i + 1;
      }
    }

    /** An expired item is taken off the gauges before its slot is reused. */
    method Forget(o: nat)
      requires o < slots.Length && now >= 1 && !Live(slots[o], now)
      modifies `gauges
      ensures gauges == old(gauges).Minus(Weight(slots[o]))
    {
      var x := slots[o];
      if x.expire < now && x.expire > 0 {
        gauges := gauges.Minus(One(x));
      }
    }

    /**
     * Find the moves that make room in a slot. The search for a place the path has not been to
     * does not skip any, so that the first candidate in order is taken, and paths may repeat.
     */
    method FindPath(displaced: nat, rnd: nat -> nat) returns (path: seq<nat>, evict: bool)
      requires Valid() && displaced < slots.Length && Live(slots[displaced], now)
      modifies `gauges
      ensures RoomPath(slots[..], h, now, path, evict) && path[0] == displaced
      ensures gauges == if evict then old(gauges) else old(gauges).Minus(Weight(slots[path[|path| - 1]]))
    {
      hide Placed, Unique, Total, Cands;
      ghost var s := slots[..];
      path, evict := [displaced], true;
      var step, ended, curr := 0, false, displaced;
      while !ended && step < DISPLACE
        invariant step <= DISPLACE && |path| == step + 1 && path[0] == displaced && curr < slots.Length
        invariant forall i :: 0 <= i < |path| ==> path[i] < |s|
        invariant forall i :: 0 <= i < step ==> Step(s, h, now, path[i], path[i + 1])
        invariant forall i :: 0 <= i < step - 1 ==> Full(s, h, now, s[path[i]].key)
        invariant ended != evict && (ended ==> step > 0 && FirstPlace(s, h, now, s[path[step - 1]].key, path[step]))
        invariant ended <==> !Live(s[path[step]], now)
        invariant !ended ==> curr == path[step] && (step > 0 ==> Full(s, h, now, s[path[step - 1]].key))
        invariant gauges == if ended then old(gauges).Minus(Weight(s[path[step]])) else old(gauges)
      {
        var offset := Cands(h, slots.Length, slots[curr].key);
        var i := FirstFree(offset);
        if i < D {
          ended, evict := true, false;
          Forget(offset[i]);
          assert Step(s, h, now, path[step], offset[i]);
          assert FirstPlace(s, h, now, s[path[step]].key, offset[i]);
          path := path + [offset[i]];
        } else {
          var ordered := SortCandidate(offset, rnd(step));
          curr := ordered[0];
          assert Full(s, h, now, s[path[step]].key);
          assert Step(s, h, now, path[step], curr);
          path := path + [curr];
        }
        step := step + 1;
      }
    }

    /** Move the items along a path, from its end on, and empty its first slot. */
    method MoveAlong(path: seq<nat>)
      requires |path| > 0 && forall i :: 0 <= i < |path| ==> path[i] < slots.Length
      modifies slots
      ensures slots[..] == Moved(old(slots[..]), path, |path| - 1)
    {
      var i := |path| - 1;
      while i > 0
        invariant 0 <= i < |path| && Moved(slots[..], path, i) == Moved(old(slots[..]), path, |path| - 1)
      {
        ghost var s := slots[..];
        slots[path[i]] := slots[path[i - 1]];
        assert slots[..] == s[path[i] := s[path[i - 1]]];
        i := i - 1;
      }
      ghost var s := slots[..];
      slots[path[0]] := Cleared(slots[path[0]]);
      assert slots[..] == s[path[0] := Cleared(s[path[0]])];
    }

    /** Make room in a slot that holds a live item. At most one item is lost. */
    method Displace(displaced: nat, rnd: nat -> nat) returns (ghost path: seq<nat>, ghost evict: bool)
      requires Valid() && displaced < slots.Length && Live(slots[displaced], now)
      modifies `gauges, slots
      ensures Valid() && slots[displaced].expire == 0
      ensures RoomPath(old(slots[..]), h, now, path, evict) && path[0] == displaced
      ensures var s := old(slots[..]);
              forall k :: Look(k) == if evict && s[path[DISPLACE]].key == k then None else old(Look(k))
    {
      hide Placed, Unique, Total, Cands, Lookup, Full, FirstPlace;
      ghost var s := slots[..];
      var q, lost := FindPath(displaced, rnd);
      path, evict := q, lost;
      var last := q[|q| - 1];
      if lost {
        gauges := gauges.Minus(One(slots[last]));
      }
      MovedKeeps(s, h, now, q, Moved(s, q, |q| - 1));
      MovedTotal(s, h, now, q);
      MoveAlong(q);
    }

    function Cap(expire: int): int
      reads `now
    {
      if expire < now + maxTtl then expire else now + maxTtl
    }

    /** The item a write leaves in a slot that held x. */
    function Written(x: Slot, key: Key, val: Val, expire: int, junk: nat): Slot
      reads this
    {
      Slot(Cap(expire), if casEnabled then casVal + 1 else x.cas, key, Stored(val, junk))
    }

    /** Write key and value to a slot. */
    method SetItem(o: nat, key: Key, val: Val, expire: int, junk: nat)
      requires o < slots.Length
      modifies slots, `casVal
      ensures slots[..] == old(slots[..])[o := old(Written(slots[o], key, val, expire, junk))]
      ensures casVal == old(casVal) + if casEnabled then 1 else 0
    {
      ghost var s := slots[..];
      var x := slots[o].(key := key, expire := Cap(expire));
      if casEnabled {
        casVal := casVal + 1;
        x := x.(cas := casVal);
      }
      slots[o] := x.(val := Stored(val, junk));
      assert slots[..] == s[o := slots[o]];
    }

    /**
     * Insert a key that is not in the table. It is then found with its value, unless its expiry is
     * past. If it has a free place, no other key changes. If not, others move along a path, and only
     * if that reaches no free slot is one key lost, that of the item in the path's last slot. The
     * gauges stay as exact as they were just when the capped expiry is above 0.
     */
    method Insert(key: Key, val: Val, expire: int, rnd: nat -> nat, junk: nat)
      returns (r: Option<nat>, ghost path: seq<nat>, ghost lost: Option<Key>)
      requires Valid() && Look(key) == None && |key| <= KEY_MAXLEN
      modifies `gauges, `casVal, `drift, slots
      ensures Valid() && (r.None? <==> !Fits(key, val))
      ensures r.None? ==> slots[..] == old(slots[..]) && casVal == old(casVal) && lost == None && path == []
      ensures r.Some? ==> r.value < slots.Length && Look(key) == if expire >= now then Some(slots[r.value]) else None
      ensures r.Some? ==> slots[r.value].key == key && slots[r.value].val == Stored(val, junk)
      ensures r.Some? ==> slots[r.value].expire == Cap(expire)
      ensures r.Some? && casEnabled ==> slots[r.value].cas == casVal == old(casVal) + 1
      ensures drift == if r.Some? && Cap(expire) <= 0 then old(drift).Plus(One(slots[r.value])) else old(drift)
      ensures drift == old(drift) <==> r.None? || Cap(expire) > 0
      ensures r.Some? ==> forall k :: k != key ==> Look(k) == if lost == Some(k) then None else old(Look(k))
      ensures r.Some? ==> (path != [] <==> Full(old(slots[..]), h, now, key))
      ensures r.Some? && path == [] ==> FirstPlace(old(slots[..]), h, now, key, r.value)
      ensures path != [] ==> RoomPath(old(slots[..]), h, now, path, lost.Some?)
      ensures path != [] ==> path[0] in Cands(h, slots.Length, key)
      ensures lost.Some? ==> path != [] && lost.value == old(slots[..])[path[DISPLACE]].key != key
    {
      hide Placed, Unique, Total, Cands, Lookup, Full, RoomPath, FirstPlace;
      if |key| + VLen(val) + Overhead() > itemSize {
        return None, [], None;
      }
      var o;
      o, path, lost := MakeRoom(key, rnd);
      ghost var s1 := slots[..];
      ghost var x := Written(s1[o], key, val, expire, junk);
      SetItem(o, key, val, expire, junk);
      TotalUpdate(s1, o, x);
      gauges := gauges.Plus(One(slots[o]));
      if Cap(expire) <= 0 {
        drift := drift.Plus(One(slots[o]));
      }
      StoreKeeps(s1, h, now, o, x, s1[o := x]);
      r := Some(o);
    }

    /** A slot for a new key: a free place of the key, or one that is freed by moving other keys. */
    method MakeRoom(key: Key, rnd: nat -> nat) returns (o: nat, ghost path: seq<nat>, ghost lost: Option<Key>)
      requires Valid() && Look(key) == None
      modifies `gauges, slots
      ensures o < slots.Length && !Live(slots[o], now) && o in Cands(h, slots.Length, key)
      ensures Placed(slots[..], h, now) && Unique(slots[..], now)
      ensures gauges == Total(slots[..]).Minus(Weight(slots[o])).Plus(drift)
      ensures forall k :: Look(k) == if lost == Some(k) then None else old(Look(k))
      ensures path != [] <==> Full(old(slots[..]), h, now, key)
      ensures path == [] ==> FirstPlace(old(slots[..]), h, now, key, o)
      ensures path != [] ==> RoomPath(old(slots[..]), h, now, path, lost.Some?) && path[0] == o
      ensures lost.Some? ==> path != [] && lost.value == old(slots[..])[path[DISPLACE]].key != key
    {
      hide Placed, Unique, Total, Cands, Lookup;
      path, lost := [], None;
      ghost var s := slots[..];
      var offset := Cands(h, slots.Length, key);
      var i := FirstFree(offset);
      if i < D {
        o := offset[i];
        Forget(o);
        FreePlace(s, h, now, key, i);
        assert FirstPlace(s, h, now, key, o);
      } else {
        assert Full(s, h, now, key);
        o := SelectCandidate(offset, rnd(DISPLACE));
        ghost var evict;
        path, evict := Displace(o, rnd);
        NotItself(s, h, now, key, path, evict);
        lost := if evict then Some(s[path[DISPLACE]].key) else None;
      }
    }

    /**
     * Give an item a new value and expiry, unless the value is too large. The gauges stay as exact as
     * they were just when the capped expiry is above 0.
     */
    method Update(o: nat, val: Val, expire: int, junk: nat) returns (ok: bool)
      requires Valid() && o < slots.Length && Live(slots[o], now)
      modifies `gauges, `casVal, `drift, slots
      ensures Valid() && (ok <==> Fits(old(slots[o].key), val))
      ensures !ok ==> slots[..] == old(slots[..]) && casVal == old(casVal)
      ensures ok ==> slots[..] == old(slots[..])[o := old(Written(slots[o], slots[o].key, val, expire, junk))]
      ensures drift == if ok && Cap(expire) <= 0 then old(drift).Plus(One(slots[o])) else old(drift)
      ensures drift == old(drift) <==> !ok || Cap(expire) > 0
      ensures ok ==> forall k ::
                Look(k) == if k != old(slots[o].key) then old(Look(k))
                           else if expire >= now then Some(slots[o]) else None
    {
      hide Placed, Unique, Total, Cands, Lookup;
      ghost var s := slots[..];
      var key := slots[o].key;
      if |key| + VLen(val) + Overhead() > itemSize {
        return false;
      }
      ghost var x := Written(s[o], key, val, expire, junk);
      var v := VLen(slots[o].val);
      gauges := gauges.(vals := gauges.vals - v, data := gauges.data - v);
      SetItem(o, key, val, expire, junk);
      v := VLen(slots[o].val);
      gauges := gauges.(vals := gauges.vals + v, data := gauges.data + v);
      if Cap(expire) <= 0 {
        drift := drift.Plus(One(slots[o]));
      }
      TotalUpdate(s, o, x);
      RewriteKeeps(s, h, now, o, x, s[o := x]);
      ok := true;
    }

    /** Delete a key: it is not found any more, and no other key changes. */
    method Delete(key: Key) returns (found: bool)
      requires Valid()
      modifies `gauges, slots
      ensures Valid() && (found <==> old(Look(key)).Some?)
      ensures forall k :: Look(k) == if k == key then None else old(Look(k))
    {
      hide Placed, Unique, Total, Cands, Lookup;
      ghost var s := slots[..];
      var r := Get(key);
      found := r.Some?;
      if found {
        var o := r.value;
        ghost var x := Cleared(s[o]);
        gauges := gauges.Minus(One(slots[o]));
        slots[o] := Cleared(slots[o]);
        assert slots[..] == s[o := x];
        TotalUpdate(s, o, x);
        RewriteKeeps(s, h, now, o, x, s[o := x]);
      }
    }
  }

  /** An item stored with expiry 0 is counted for good, although its slot is empty. */
  method StoreForNothing(h: Hash, rnd: nat -> nat) returns (c: Store)
    ensures c.Valid() && c.drift.items == 1 && c.Look([0]) == None
  {
    c := new Store(1, h, 64, false, 10, true, 1);
    var r;
    ghost var path, lost;
    r, path, lost := c.Insert([0], Int(5), 0, rnd, 0);
  }

  lemma FreePlace(s: seq<Slot>, h: Hash, now: int, key: Key, i: nat)
    requires |s| > 0 && i < D && !Live(s[Cands(h, |s|, key)[i]], now)
    ensures !Full(s, h, now, key) && Cands(h, |s|, key)[i] in Cands(h, |s|, key)
  {
  }

  /** The key lost is one that was in the table, so it is not the one being inserted. */
  lemma NotItself(s: seq<Slot>, h: Hash, now: int, key: Key, path: seq<nat>, evict: bool)
    requires RoomPath(s, h, now, path, evict) && Lookup(s, now, key) == None
    ensures evict ==> s[path[DISPLACE]].key != key
  {
    if evict {
      assert !Has(s, now, key, path[DISPLACE]);
    }
  }

  lemma EmptyTable(s: seq<Slot>, h: Hash, now: int)
    requires |s| > 0 && now >= 1 && forall i :: 0 <= i < |s| ==> s[i].expire == 0
    ensures Placed(s, h, now) && Unique(s, now) && Total(s) == ZERO && forall k :: Lookup(s, now, k) == None
  {
    hide Cands, Total, Lookup;
    TotalNone(s);
    forall k ensures Lookup(s, now, k) == None {
      NoLookup(s, now, k);
    }
  }

  lemma NoLookup(s: seq<Slot>, now: int, k: Key)
    requires forall i :: 0 <= i < |s| ==> !Live(s[i], now)
    ensures Lookup(s, now, k) == None
  {
  }

  lemma SameMembers(p: seq<nat>, q: seq<nat>)
    requires multiset(p) == multiset(q)
    ensures forall i :: 0 <= i < |p| ==> p[i] in q
  {
    forall i | 0 <= i < |p| ensures p[i] in q {
      assert p[i] in multiset(p);
    }
  }

  lemma Rotated(q: seq<nat>, r: seq<nat>, j: nat)
    requires |q| == |r| == D && j < D && forall k :: 0 <= k < D ==> r[k] == q[(j + k) % D]
    ensures multiset(r) == multiset(q)
  {
    assert r == q[j..] + q[..j] && q == q[..j] + q[j..];
  }

  /** The k-th place is the first of those that expire first; expiries from MAX_EXPIRE on count as never. */
  ghost predicate FirstToExpire(s: seq<Slot>, offset: seq<nat>, k: nat) {
    && k < |offset| && (forall i :: 0 <= i < |offset| ==> offset[i] < |s|)
    && (forall i :: 0 <= i < |offset| && s[offset[i]].expire < MAX_EXPIRE ==>
          s[offset[k]].expire <= s[offset[i]].expire)
    && forall j :: 0 <= j < k ==> s[offset[j]].expire > s[offset[k]].expire
  }

  ghost predicate InOrder(s: seq<Slot>, q: seq<nat>, except: int) {
    && (forall k :: 0 <= k < |q| ==> q[k] < |s|)
    && forall k, l :: 0 <= k < l < |q| && l != except ==> s[q[k]].expire <= s[q[l]].expire
  }

  /** An insertion sort of places by the expiry of what they hold. */
  method SortByExpiry(s: seq<Slot>, offset: seq<nat>) returns (ordered: seq<nat>)
    requires forall i :: 0 <= i < |offset| ==> offset[i] < |s|
    ensures |ordered| == |offset| && multiset(ordered) == multiset(offset) && InOrder(s, ordered, -1)
  {
    hide InOrder;
    ordered := [];
    OrderEmpty(s);
    for i := 0 to |offset|
      invariant |ordered| == i && multiset(ordered) == multiset(offset[..i]) && InOrder(s, ordered, -1)
    {
      assert offset[..i + 1] == offset[..i] + [offset[i]];
      OrderMore(s, ordered, offset[i]);
      ordered := ordered + [offset[i]];
      var j := i;
      while j > 0 && s[ordered[j]].expire < s[ordered[j - 1]].expire
        invariant 0 <= j <= i && |ordered| == i + 1 && multiset(ordered) == multiset(offset[..i + 1])
        invariant InOrder(s, ordered, j) && LeastFrom(s, ordered, j)
        invariant forall k :: 0 <= k <= i ==> ordered[k] < |s|
      {
        Swapped(s, ordered, j);
        ordered := ordered[j := ordered[j - 1]][j - 1 := ordered[j]];
        j := j - 1;
      }
      OrderDone(s, ordered, j);
    }
    assert offset[..|offset|] == offset;
  }

  /** The place at j expires no later than those behind it. */
  ghost predicate LeastFrom(s: seq<Slot>, q: seq<nat>, j: nat) {
    j < |q| && (forall k :: 0 <= k < |q| ==> q[k] < |s|) && forall l :: j < l < |q| ==> s[q[j]].expire <= s[q[l]].expire
  }

  lemma OrderEmpty(s: seq<Slot>)
    ensures InOrder(s, [], -1)
  {
  }

  lemma OrderMore(s: seq<Slot>, q: seq<nat>, o: nat)
    requires InOrder(s, q, -1) && o < |s|
    ensures InOrder(s, q + [o], |q|) && LeastFrom(s, q + [o], |q|)
  {
  }

  lemma OrderDone(s: seq<Slot>, q: seq<nat>, j: nat)
    requires InOrder(s, q, j) && j < |q| && (j > 0 ==> s[q[j - 1]].expire <= s[q[j]].expire)
    ensures InOrder(s, q, -1)
  {
    forall k, l | 0 <= k < l < |q| ensures s[q[k]].expire <= s[q[l]].expire {
      if l == j && k < j - 1 {
        assert s[q[k]].expire <= s[q[j - 1]].expire;
      }
    }
  }

  lemma Swapped(s: seq<Slot>, q: seq<nat>, j: nat)
    requires 0 < j < |q| && InOrder(s, q, j) && s[q[j]].expire < s[q[j - 1]].expire
    requires LeastFrom(s, q, j)
    ensures var q' := q[j := q[j - 1]][j - 1 := q[j]];
            multiset(q') == multiset(q) && InOrder(s, q', j - 1) && LeastFrom(s, q', j - 1)
  {
    var q' := q[j := q[j - 1]][j - 1 := q[j]];
    forall k, l | 0 <= k < l < |q'| && l != j - 1 ensures s[q'[k]].expire <= s[q'[l]].expire {
    }
  }

  lemma {:induction false} TotalNone(s: seq<Slot>)
    requires forall i :: 0 <= i < |s| ==> s[i].expire == 0
    ensures Total(s) == ZERO
  {
    if s != [] {
      var t := s[..|s| - 1];
      TotalNone(t);
      assert Weight(s[|s| - 1]) == ZERO;
    }
  }
}
