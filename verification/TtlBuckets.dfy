/**
 * TTL buckets: 1024 buckets in four steps of 256, with widths 8, 128, 2048 and 32768
 * seconds. A segment carries the ttl of its bucket, not the ttls of its items, and the
 * bucket of a segment is found again from that ttl when the segment leaves its list.
 */
module TtlBuckets {
  const STEP: nat := 256
  const N_BUCKET: nat := 1024
  const MAX_IDX: nat := 1023
  const BOUNDARY1: nat := 0x800
  const BOUNDARY2: nat := 0x8000
  const BOUNDARY3: nat := 0x8_0000
  const BOUNDARY4: nat := 0x80_0000

  predicate Int32(x: int) { -0x8000_0000 <= x < 0x8000_0000 }

  /**
   * The bucket index of a ttl. The code's shifts are divisions rounding down, for
   * a negative ttl too; the sum in the last branch is unsigned, so it wraps.
   */
  function FindIdx(ttl: int): (idx: nat)
    requires Int32(ttl)
    ensures idx < N_BUCKET
  {
    if ttl == 0 then MAX_IDX
    else if 0 <= ttl < BOUNDARY1 then ttl / 8
    else if 0 <= ttl < BOUNDARY2 then ttl / 128 + STEP
    else if 0 <= ttl < BOUNDARY3 then ttl / 2048 + 2 * STEP
    else
      var i := (ttl / 32768 + 3 * STEP) % 0x1_0000_0000;
      if i > MAX_IDX then MAX_IDX else i
  }

  /** The ttl that setup gives to a bucket: its place in its step, times the step's width, plus one. */
  function BucketTtl(idx: nat): (ttl: int)
    requires idx < N_BUCKET
    ensures 1 <= ttl < BOUNDARY4
  {
    var j := idx % STEP;
    if idx < STEP then 8 * j + 1
    else if idx < 2 * STEP then 128 * j + 1
    else if idx < 3 * STEP then 2048 * j + 1
    else 32768 * j + 1
  }

  /** The first 16 buckets of the later steps overlap the step before. */
  predicate Used(idx: nat) {
    idx < N_BUCKET && (idx < STEP || idx % STEP >= 16)
  }

  /** The ttl of the j-th bucket of a step. */
  lemma TtlOf(step: nat, j: nat)
    requires step < 4 && j < STEP
    ensures BucketTtl(step * STEP + j) == (match step case 0 => 8 case 1 => 128 case 2 => 2048 case _ => 32768) * j + 1
  {
  }

  lemma FindNarrow(j: nat)
    requires j < STEP
    ensures FindIdx(8 * j + 1) == j && (FindIdx(128 * j + 1) == STEP + j <==> j >= 16)
  {
  }

  lemma FindWide(j: nat)
    requires j < STEP
    ensures FindIdx(2048 * j + 1) == 2 * STEP + j <==> j >= 16
    ensures FindIdx(32768 * j + 1) == 3 * STEP + j <==> j >= 16
  {
  }

  /** List removal looks a bucket up by its own ttl, and this finds it just when the bucket is a used one. */
  lemma OwnTtlFindsBucket(idx: nat)
    requires idx < N_BUCKET
    ensures FindIdx(BucketTtl(idx)) == idx <==> Used(idx)
  {
    hide BucketTtl, FindIdx;
    var step, j := idx / STEP, idx % STEP;
    TtlOf(step, j);
    FindNarrow(j);
    FindWide(j);
  }

  /** The ttls for which an item lands in a bucket that can be found again. */
  predicate Stable(ttl: int) {
    !(-0x100_0000 <= ttl < -0xF8_0000) && !(-0x80_0000 <= ttl < -0x78_0000)
  }

  /** A negative ttl leads to a bucket of the first three steps, or to the last one. */
  lemma FindNegative(ttl: int)
    requires Int32(ttl) && ttl < 0
    ensures FindIdx(ttl) == var i := ttl / 32768 + 3 * STEP; if i < 0 then MAX_IDX else i
  {
  }

  lemma FindPositive(ttl: int)
    requires Int32(ttl) && ttl >= 0
    ensures Used(FindIdx(ttl))
  {
  }

  /** Every ttl from 0 up is stable. Of the negative ones two ranges are not, and no others. */
  lemma StableIffUsed(ttl: int)
    requires Int32(ttl)
    ensures Stable(ttl) <==> Used(FindIdx(ttl))
    ensures Stable(ttl) <==> FindIdx(BucketTtl(FindIdx(ttl))) == FindIdx(ttl)
  {
    hide FindIdx, BucketTtl;
    OwnTtlFindsBucket(FindIdx(ttl));
    if ttl < 0 {
      FindNegative(ttl);
    } else {
      FindPositive(ttl);
    }
  }

  /** A ttl far enough below zero selects a bucket whose own ttl belongs to another one. */
  lemma UnstableExample()
    ensures FindIdx(-0x80_0000) == 512 && BucketTtl(512) == 1 && FindIdx(1) == 0
  {
  }

  lemma Monotone(t: int, u: int)
    requires 0 < t <= u < BOUNDARY4
    ensures FindIdx(t) <= FindIdx(u)
  {
  }

  /** The width of the buckets for a ttl. */
  function Width(ttl: nat): (w: nat)
    requires ttl < BOUNDARY4
    ensures w > 0 && (w == 8 || 16 * w <= ttl)
  {
    if ttl < BOUNDARY1 then 8 else if ttl < BOUNDARY2 then 128 else if ttl < BOUNDARY3 then 2048 else 32768
  }

  /** A bucket's ttl is one more than the least ttl that leads to it. */
  lemma BucketTtlIs(ttl: int)
    requires 0 < ttl < BOUNDARY4
    ensures BucketTtl(FindIdx(ttl)) == ttl - ttl % Width(ttl) + 1
  {
    hide BucketTtl;
    if ttl < BOUNDARY1 {
      TtlOf(0, ttl / 8);
    } else if ttl < BOUNDARY2 {
      TtlOf(1, ttl / 128);
    } else if ttl < BOUNDARY3 {
      TtlOf(2, ttl / 2048);
    } else {
      TtlOf(3, ttl / 32768);
    }
  }

  /**
   * The bucket's ttl exceeds the item's by at most one second, and falls short of it by
   * less than the bucket's width, which is 8 or a sixteenth of the ttl.
   */
  lemma Precision(ttl: int)
    requires 0 < ttl < BOUNDARY4
    ensures BucketTtl(FindIdx(ttl)) <= ttl + 1
    ensures ttl - BucketTtl(FindIdx(ttl)) < 8 || 16 * (ttl - BucketTtl(FindIdx(ttl))) < ttl
  {
    hide FindIdx, BucketTtl, Width;
    BucketTtlIs(ttl);
  }
}
