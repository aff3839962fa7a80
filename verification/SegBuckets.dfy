/**
 * The memory layout of a bucket chain: buckets of 8 slots, of which the first slot of the
 * head bucket holds the bucket info and the last slot of every bucket but the last holds
 * the link to the next one.
 */
module SegBuckets {
  import opened SegItems
  import opened SegIndex

  const SLOTS: nat := 8

  type Bucket = seq<Slot>

  predicate RawOk(raw: seq<Bucket>) {
    && |raw| > 0
    && (forall k :: 0 <= k < |raw| ==> |raw[k]| == SLOTS)
    && raw[0][0] == Stat
    && (forall k :: 0 <= k < |raw| - 1 ==> raw[k][7] == Link)
  }

  /** The item slots of bucket k in a chain of n buckets are i with First(k) <= i < Last(k, n). */
  function First(k: nat): nat { if k == 0 then 1 else 0 }

  function Last(k: nat, n: nat): nat { if k + 1 < n then SLOTS - 1 else SLOTS }

  /** A cursor (k, i) over the item slots of a chain of n buckets; it has run off the end when k == n. */
  predicate AtSlot(k: nat, i: nat, n: nat) {
    k <= n && (k < n ==> First(k) <= i < Last(k, n))
  }

  function Position(k: nat, i: nat, n: nat): (j: nat)
    requires AtSlot(k, i, n)
    ensures k < n <==> j < 7 * n
    ensures j <= 7 * n
  {
    if k < n then 7 * k + i - 1 else 7 * n
  }

  /** The next item slot, in the same bucket or the one it links to. */
  function Next(k: nat, i: nat, n: nat): (r: (nat, nat))
    requires AtSlot(k, i, n) && k < n
    ensures AtSlot(r.0, r.1, n) && Position(r.0, r.1, n) == Position(k, i, n) + 1
  {
    if i + 1 < Last(k, n) then (k, i + 1) else (k + 1, 0)
  }

  /** A slot's position lies in its bucket, and leaving the bucket is passing its end. */
  lemma SlotBucket(k: nat, i: nat, n: nat)
    requires AtSlot(k, i, n) && k < n
    ensures BucketOf(Position(k, i, n), n) == k
    ensures Position(k, i, n) < BucketEnd(k, n)
    ensures Next(k, i, n).0 != k ==> Position(k, i, n) + 1 == BucketEnd(k, n)
  {
  }

  /** c lists the item slots of the chain in the order a scan meets them. */
  ghost predicate Scans(raw: seq<Bucket>, c: Chain) {
    && RawOk(raw) && |c| == 7 * |raw|
    && forall k, i :: 0 <= k < |raw| && First(k) <= i < Last(k, |raw|) ==> raw[k][i] == c[7 * k + i - 1]
  }

  lemma ScanAt(raw: seq<Bucket>, c: Chain, k: nat, i: nat)
    requires Scans(raw, c) && k < |raw| && AtSlot(k, i, |raw|)
    ensures |c| == 7 * |raw| && |raw[k]| == SLOTS && raw[k][i] == c[7 * k + i - 1]
  {
  }

  lemma ScanSize(raw: seq<Bucket>, c: Chain)
    requires Scans(raw, c)
    ensures |c| == 7 * |raw| && |raw| > 0
  {
  }

  /** There is only one such order: every position is some slot's. */
  lemma ScanUnique(raw: seq<Bucket>, c: Chain, c': Chain)
    requires Scans(raw, c) && Scans(raw, c')
    ensures c == c'
  {
    forall j | 0 <= j < |c| ensures c[j] == c'[j] {
      var k := BucketOf(j, |raw|);
      var i := j - 7 * k + 1;
      assert First(k) <= i < Last(k, |raw|);
      assert raw[k][i] == c[7 * k + i - 1];
    }
  }

  lemma ScanStore(raw: seq<Bucket>, c: Chain, k: nat, i: nat, x: Slot)
    requires Scans(raw, c) && k < |raw| && AtSlot(k, i, |raw|)
    ensures 0 <= 7 * k + i - 1 < |c|
    ensures Scans(raw[k := raw[k][i := x]], c[7 * k + i - 1 := x])
  {
    var raw', c' := raw[k := raw[k][i := x]], c[7 * k + i - 1 := x];
    assert RawOk(raw');
    forall k', i' | 0 <= k' < |raw| && First(k') <= i' < Last(k', |raw|)
      ensures raw'[k'][i'] == c'[7 * k' + i' - 1]
    {
      assert raw[k'][i'] == c[7 * k' + i' - 1];
      assert (k', i') != (k, i) ==> 7 * k' + i' - 1 != 7 * k + i - 1;
    }
  }

  /** The last slot of the full last bucket moves to a new bucket and its place becomes the link. */
  function Grown(raw: seq<Bucket>, x: Slot): seq<Bucket>
    requires RawOk(raw)
  {
    var last := raw[|raw| - 1];
    raw[|raw| - 1 := last[7 := Link]] + [[last[7], x, Empty, Empty, Empty, Empty, Empty, Empty]]
  }

  /** In scan order, growing a chain only appends. */
  lemma ScanGrown(raw: seq<Bucket>, c: Chain, x: Slot)
    requires Scans(raw, c)
    ensures Scans(Grown(raw, x), c + [x, Empty, Empty, Empty, Empty, Empty, Empty])
  {
    var n := |raw|;
    var raw' := Grown(raw, x);
    var c' := c + [x, Empty, Empty, Empty, Empty, Empty, Empty];
    assert RawOk(raw');
    assert raw[n - 1][7] == c[7 * (n - 1) + 7 - 1];
    forall k, i | 0 <= k < n + 1 && First(k) <= i < Last(k, n + 1)
      ensures raw'[k][i] == c'[7 * k + i - 1]
    {
      if k < n {
        assert raw[k][i] == c[7 * k + i - 1];
      }
    }
  }
}
