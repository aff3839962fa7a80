/**
 * The session's byte buffer: bytes are put at the end and taken from the front; the memory
 * behind it grows by powers of two, or whole mebibytes from one on, and shrinks again.
 */
module SessionBuffer {
  import opened Basics

  const MB: nat := 0x10_0000

  // ---------------------------------------------------------------------------
  // Powers of two
  // ---------------------------------------------------------------------------

  predicate IsPow2(p: nat) {
    p == 1 || (p > 1 && p % 2 == 0 && IsPow2(p / 2))
  }

  function DoubleTo(n: nat, p: nat): (r: nat)
    requires p > 0
    ensures r >= n && r >= p
    decreases n - p
  {
    if p >= n then p else DoubleTo(n, 2 * p)
  }

  function NextPow2(n: nat): nat { DoubleTo(n, 1) }

  /** One of two powers of two that is larger is at least twice the other. */
  lemma {:induction false} Pow2Gap(p: nat, q: nat)
    requires IsPow2(p) && IsPow2(q) && p < q
    ensures 2 * p <= q
  {
    if p > 1 {
      Pow2Gap(p / 2, q / 2);
    }
  }

  lemma Pow2Double(p: nat)
    requires IsPow2(p)
    ensures p > 0 && IsPow2(2 * p)
  {
    assert 2 * p / 2 == p;
  }

  lemma {:induction false} DoubleToLeast(n: nat, p: nat, q: nat)
    requires IsPow2(p) && IsPow2(q) && p <= q && n <= q
    ensures IsPow2(DoubleTo(n, p)) && DoubleTo(n, p) <= q
    decreases n - p
  {
    hide IsPow2;
    Pow2Double(p);
    if p < n {
      Pow2Gap(p, q);
      DoubleToLeast(n, 2 * p, q);
    }
  }

  /** The result is the least power of two that is not below n. */
  lemma NextPow2Least(n: nat, q: nat)
    requires IsPow2(q) && n <= q
    ensures IsPow2(NextPow2(n)) && n <= NextPow2(n) <= q
  {
    Pow2Pos(q);
    DoubleToLeast(n, 1, q);
  }

  lemma {:induction false} DoubleToPow2(n: nat, p: nat)
    requires IsPow2(p)
    ensures IsPow2(DoubleTo(n, p))
    decreases n - p
  {
    hide IsPow2;
    Pow2Double(p);
    if p < n {
      DoubleToPow2(n, 2 * p);
    }
  }

  /** Powers of two from a mebibyte on are whole mebibytes. */
  lemma {:induction false} Pow2Multiple(p: nat)
    requires IsPow2(p) && p >= MB
    ensures p % MB == 0
  {
    if p > MB {
      MbIsPow2();
      Pow2Gap(MB, p);
      Pow2Multiple(p / 2);
    }
  }

  lemma Pow2Pos(q: nat)
    requires IsPow2(q)
    ensures q >= 1
  {
  }

  lemma MbIsPow2()
    ensures IsPow2(MB)
  {
    assert IsPow2(0x20);
    assert IsPow2(0x400);
    assert IsPow2(0x8000);
  }

  // ---------------------------------------------------------------------------
  // The buffer
  // ---------------------------------------------------------------------------

  /** Capacities: powers of two up to a mebibyte, and whole mebibytes above. */
  predicate CapOk(cap: nat) {
    if cap <= MB then IsPow2(cap) else cap % MB == 0
  }

  /** The capacity for n bytes that do not fit. */
  function Grown(n: nat): nat {
    if n > MB || NextPow2(n) > MB then (n / MB + 1) * MB else NextPow2(n)
  }

  /** The capacity that is kept for n bytes. */
  function Kept(n: nat): nat {
    if n > MB then (1 + n / MB) * MB else NextPow2(n)
  }

  lemma GrownOk(n: nat)
    ensures CapOk(Grown(n)) && Grown(n) >= n
  {
    MbIsPow2();
    if n <= MB {
      NextPow2Least(n, MB);
    } else {
      MbMultiple(n / MB + 1);
    }
  }

  lemma MbMultiple(k: nat)
    ensures (k * MB) % MB == 0
    ensures k >= 1 ==> k * MB >= MB
  {
  }

  lemma KeptOk(n: nat)
    ensures CapOk(Kept(n)) && Kept(n) >= n
  {
    GrownOk(n);
    MbIsPow2();
    if n <= MB {
      NextPow2Least(n, MB);
    }
  }

  /**
   * Keeping n bytes of a buffer never takes more memory than it has, except when the buffer is
   * larger than a mebibyte and completely full: then it takes a mebibyte more.
   */
  lemma KeptFits(n: nat, cap: nat)
    requires CapOk(cap) && n <= cap
    ensures Kept(n) <= cap <==> !(n > MB && n == cap)
  {
    MbIsPow2();
    if n <= MB {
      if cap <= MB {
        NextPow2Least(n, cap);
      } else {
        NextPow2Least(n, MB);
      }
    } else {
      var j, k := n / MB, cap / MB;
      assert cap == k * MB && n == j * MB + n % MB;
      assert Kept(n) == (1 + j) * MB;
    }
  }

  class Buffer {
    var data: array<Byte>
    var readOffset: nat
    var writeOffset: nat
    const targetSize: nat
    /** What the gauge of buffer bytes counts for this buffer. */
    var charged: int

    function Cap(): nat
      reads this
    {
      data.Length
    }

    ghost predicate Valid()
      reads this
    {
      readOffset <= writeOffset <= Cap() && CapOk(Cap()) && CapOk(targetSize) && charged == Cap()
    }

    /** The bytes that can be read. */
    ghost function Contents(): seq<Byte>
      requires readOffset <= writeOffset <= Cap()
      reads this, data
    {
      data[readOffset..writeOffset]
    }

    constructor (size: nat)
      ensures Valid() && Contents() == [] && fresh(data) && Cap() == targetSize == NextPow2(size)
    {
      DoubleToPow2(size, 1);
      if NextPow2(size) > MB {
        Pow2Multiple(NextPow2(size));
      }
      targetSize := NextPow2(size);
      data := new Byte[NextPow2(size)](_ => 0);
      readOffset, writeOffset, charged := 0, 0, NextPow2(size);
    }

    function Remaining(): nat
      requires readOffset <= writeOffset
      reads this
    {
      writeOffset - readOffset
    }

    function RemainingMut(): nat
      requires writeOffset <= Cap()
      reads this
    {
      Cap() - writeOffset
    }

    /** Another piece of memory, with the same bytes as far as both go. */
    method Realloc(size: nat)
      modifies this
      ensures fresh(data) && data.Length == size
      ensures forall i :: 0 <= i < size && i < old(data.Length) ==> data[i] == old(data[i])
      ensures readOffset == old(readOffset) && writeOffset == old(writeOffset) && charged == old(charged)
    {
      var was := data;
      data := new Byte[size](i requires i >= 0 reads was => if i < was.Length then was[i] else 0);
    }

    /** Make room for amt more bytes. */
    method Reserve(amt: nat)
      requires Valid()
      modifies this
      ensures Valid() && (data == old(data) || fresh(data)) && RemainingMut() >= amt
      ensures Contents() == old(Contents())
      ensures writeOffset == if old(Remaining()) == 0 then 0 else old(writeOffset)
      ensures Cap() == if amt > old(Cap()) - writeOffset then Grown(writeOffset + amt) else old(Cap())
    {
      if Remaining() == 0 {
        readOffset, writeOffset := 0, 0;
      }
      if amt > RemainingMut() {
        var size := writeOffset + amt;
        GrownOk(size);
        var more := Grown(size) - Cap();
        charged := charged + more;
        ghost var was := data[..];
        Realloc(Cap() + more);
        assert data[..writeOffset] == was[..writeOffset];
      }
    }

    /** Drop all bytes, and memory beyond the target size. */
    method Clear()
      requires Valid()
      modifies this
      ensures Valid() && (data == old(data) || fresh(data)) && Contents() == []
      ensures Cap() == Min(old(Cap()), targetSize)
    {
      readOffset, writeOffset := 0, 0;
      if Cap() > targetSize {
        charged := charged - (Cap() - targetSize);
        Realloc(targetSize);
      }
    }

    /**
     * Give memory back. The bytes stay the same, and so do their order and number; those that lie
     * deep in the buffer are moved to its beginning.
     */
    method Compact()
      requires Valid()
      modifies this, data
      ensures Valid() && (data == old(data) || fresh(data)) && Contents() == old(Contents())
      ensures old(Contents()) == [] ==> Cap() == Min(old(Cap()), targetSize)
      ensures old(Contents()) != [] ==> Cap() == if old(Cap()) == targetSize then targetSize else Kept(writeOffset)
      ensures old(Contents()) != [] ==>
                readOffset == if old(Cap()) != targetSize && old(readOffset) > targetSize then 0 else old(readOffset)
      ensures !(old(writeOffset) > MB && old(writeOffset) == old(Cap())) ==> Cap() <= old(Cap())
    {
      if Remaining() == 0 {
        Clear();
        return;
      }
      if Cap() == targetSize {
        return;
      }
      ghost var c := Contents();
      if readOffset > targetSize {
        MoveToFront();
      }
      var target := Kept(writeOffset);
      KeptOk(writeOffset);
      KeptFits(writeOffset, Cap());
      charged := charged - (Cap() - target);
      ghost var was := data[..];
      Realloc(target);
      assert data[..writeOffset] == was[..writeOffset];
    }

    method MoveToFront()
      requires Valid()
      modifies this, data
      ensures Valid() && data == old(data) && readOffset == 0 && Contents() == old(Contents())
      ensures writeOffset <= old(writeOffset)
      ensures old(readOffset) > 0 && old(writeOffset) > 0 ==> writeOffset < old(writeOffset)
    {
      var n, from := Remaining(), readOffset;
      forall i | 0 <= i < n {
        data[i] := data[from + i];
      }
      readOffset, writeOffset := 0, n;
    }

    /** Take up to amt bytes off the front. */
    method Advance(amt: nat)
      requires Valid()
      modifies this, data
      ensures Valid() && (data == old(data) || fresh(data))
      ensures Contents() == old(Contents())[Min(amt, |old(Contents())|)..]
    {
      readOffset := Min(readOffset + amt, writeOffset);
      Compact();
    }

    /** Count up to amt bytes that were written behind the end as part of the buffer. */
    method AdvanceMut(amt: nat)
      requires Valid()
      modifies `writeOffset
      ensures Valid() && writeOffset == Min(old(writeOffset) + amt, Cap())
      ensures Contents() == old(Contents()) + data[old(writeOffset)..writeOffset]
    {
      writeOffset := Min(writeOffset + amt, Cap());
    }

    /** Write bytes behind the end. */
    method WriteBytes(src: seq<Byte>)
      requires Valid() && |src| <= RemainingMut()
      modifies data
      ensures data[writeOffset..writeOffset + |src|] == src && Contents() == old(Contents())
    {
      var w := writeOffset;
      forall i | 0 <= i < |src| {
        data[w + i] := src[i];
      }
    }

    /** Append bytes. */
    method PutSlice(src: seq<Byte>)
      requires Valid()
      modifies this, data
      ensures Valid() && (data == old(data) || fresh(data)) && Contents() == old(Contents()) + src
    {
      Reserve(|src|);
      WriteBytes(src);
      AdvanceMut(|src|);
    }
  }

  /** A buffer that is filled to a capacity of two mebibytes takes a third when it is compacted. */
  method FillAndCompact() returns (b: Buffer)
    ensures b.Valid() && |b.Contents()| == 2 * MB && b.Cap() == 3 * MB
  {
    b := new Buffer(1);
    b.Reserve(MB + 1);
    b.AdvanceMut(2 * MB);
    assert b.Cap() == 2 * MB == b.writeOffset;
    b.Compact();
  }
}
