/**
 * A list of values packed into bytes: the entries follow each other, and the list is walked from
 * either end. On the bytes, every operation does what it should do on the list of values.
 */
module Ziplist {
  import opened Basics
  import opened ZipEntry

  const HEADER_SIZE: nat := 8

  datatype Status = Ok | NotFound | OutOfBounds | Invalid

  ghost predicate AllStorable(l: seq<Blob>) {
    forall i :: 0 <= i < |l| ==> Storable(l[i])
  }

  /** The bytes of a list of values. */
  ghost function Enc(l: seq<Blob>): (s: seq<Byte>)
    requires AllStorable(l)
  {
    if l == [] then [] else Encode(l[0]) + Enc(l[1..])
  }

  /** Where the entry of index i begins. */
  ghost function Off(l: seq<Blob>, i: nat): nat
    requires AllStorable(l) && i <= |l|
  {
    |Enc(l[..i])|
  }

  lemma {:induction false} EncConcat(a: seq<Blob>, b: seq<Blob>)
    requires AllStorable(a) && AllStorable(b)
    ensures AllStorable(a + b) && Enc(a + b) == Enc(a) + Enc(b)
  {
    hide Encode;
    if a == [] {
      assert a + b == b;
    } else {
      EncConcat(a[1..], b);
      assert (a + b)[1..] == a[1..] + b && (a + b)[0] == a[0];
      assert Encode(a[0]) + (Enc(a[1..]) + Enc(b)) == Encode(a[0]) + Enc(a[1..]) + Enc(b);
    }
  }

  lemma EncEmpty()
    ensures forall l | AllStorable(l) :: Off(l, 0) == 0
  {
  }

  lemma EncSplit(l: seq<Blob>, i: nat)
    requires AllStorable(l) && i <= |l|
    ensures Enc(l) == Enc(l[..i]) + Enc(l[i..]) && |Enc(l)| == Off(l, i) + |Enc(l[i..])|
  {
    hide Enc, Encode;
    assert l == l[..i] + l[i..];
    EncConcat(l[..i], l[i..]);
  }

  /** Entry i lies between its own offset and the next one's. */
  lemma EncEntry(l: seq<Blob>, i: nat)
    requires AllStorable(l) && i < |l|
    ensures Enc(l[i..]) == Encode(l[i]) + Enc(l[i + 1..])
    ensures Off(l, i + 1) == Off(l, i) + |Encode(l[i])| <= |Enc(l)|
    ensures Enc(l)[Off(l, i)..Off(l, i + 1)] == Encode(l[i])
  {
    hide Enc, Encode;
    EncFirst(l, i);
    EncNext(l, i);
    EncSplit(l, i);
    Middle(Enc(l[..i]), Encode(l[i]), Enc(l[i + 1..]));
  }

  lemma Middle(a: seq<Byte>, e: seq<Byte>, r: seq<Byte>)
    ensures (a + (e + r))[|a|..|a| + |e|] == e
  {
  }

  lemma EncNext(l: seq<Blob>, i: nat)
    requires AllStorable(l) && i < |l|
    ensures Off(l, i + 1) == Off(l, i) + |Encode(l[i])|
  {
    hide Enc, Encode;
    assert l[..i + 1] == l[..i] + [l[i]];
    EncFirst([l[i]], 0);
    EncConcat(l[..i], [l[i]]);
  }

  lemma EncFirst(l: seq<Blob>, i: nat)
    requires AllStorable(l) && i < |l|
    ensures Enc(l[i..]) == Encode(l[i]) + Enc(l[i + 1..])
    ensures |l| == 1 ==> Enc(l) == Encode(l[0])
  {
    hide Encode;
    assert l[i..][1..] == l[i + 1..];
    assert |l| == 1 ==> l[1..] == [];
  }

  /** The bytes between two offsets are those of the values between two indices. */
  lemma EncBetween(l: seq<Blob>, i: nat, j: nat)
    requires AllStorable(l) && i <= j <= |l|
    ensures Off(l, i) <= Off(l, j) <= |Enc(l)| && Enc(l[..i] + l[j..]) == Enc(l)[..Off(l, i)] + Enc(l)[Off(l, j)..]
  {
    hide Enc, Encode;
    EncSplit(l, i);
    EncSplit(l, j);
    EncConcat(l[..i], l[j..]);
    assert l[..j] == l[..i] + l[i..j];
    EncConcat(l[..i], l[i..j]);
  }

  /** The bytes from entry i on are those of the list from there on. */
  lemma EncFrom(l: seq<Blob>, i: nat)
    requires AllStorable(l) && i <= |l|
    ensures Off(l, i) <= |Enc(l)| && Enc(l)[..Off(l, i)] == Enc(l[..i]) && Enc(l)[Off(l, i)..] == Enc(l[i..])
  {
    hide Enc, Encode;
    EncSplit(l, i);
  }

  /** What a reader of the bytes from entry i on finds. */
  lemma EntryIn(l: seq<Blob>, i: nat)
    requires AllStorable(l) && i < |l|
    ensures var e := Encode(l[i]);
            && |e| <= |Enc(l[i..])| && Enc(l[i..])[..|e|] == e && |e| > 0 && e[|e| - 1] == |e|
            && EntryLen(Enc(l[i..])) == |e| && Decode(Enc(l[i..])) == l[i]
  {
    hide Enc, Encode, Decode, EntryLen;
    EncFirst(l, i);
    RoundTrip(l[i], Enc(l[i + 1..]));
  }

  lemma SameFront<T>(b: seq<T>, b': seq<T>, from: nat, to: nat, n: nat)
    requires from <= to <= n <= |b| && |b'| == |b| && b'[..n] == b[..n]
    ensures b'[from..to] == b[from..to]
  {
    assert b'[from..to] == b'[..n][from..to] && b[from..to] == b[..n][from..to];
  }

  lemma SliceOf<T>(b: seq<T>, from: nat, i: nat, j: nat, to: nat)
    requires from <= i <= j <= to <= |b|
    ensures b[from..to][i - from..j - from] == b[i..j] && b[from..to][i - from..] == b[i..to]
    ensures b[from..to][..i - from] == b[from..i]
  {
    var c := b[from..to];
    assert forall k :: i <= k < to ==> c[k - from] == b[k];
    assert c[i - from..j - from] == b[i..j];
    assert c[i - from..] == b[i..to];
    assert c[..i - from] == b[from..i];
  }

  lemma NotStored(l: seq<Blob>, v: Blob)
    requires AllStorable(l) && !Storable(v)
    ensures v !in l
  {
  }

  lemma NotBefore(l: seq<Blob>, i: nat, v: Blob)
    requires i < |l| && v !in l[..i] && l[i] != v
    ensures v !in l[..i + 1]
  {
    assert l[..i + 1] == l[..i] + [l[i]];
  }

  class List {
    const buf: array<Byte>
    /** The header: the number of entries, and the offset of the last byte. */
    var nentry: nat
    var nend: nat
    ghost var list: seq<Blob>

    /** The bytes behind the header, up to the end, are those of the list. */
    ghost predicate Valid()
      reads this, buf
    {
      && AllStorable(list) && nentry == |list| && nend + 1 == HEADER_SIZE + |Enc(list)| <= buf.Length
      && buf[HEADER_SIZE..nend + 1] == Enc(list)
    }

    constructor (size: nat)
      requires size >= HEADER_SIZE
      ensures Valid() && list == [] && fresh(buf) && buf.Length == size
    {
      buf := new Byte[size](_ => 0);
      nentry, nend, list := 0, HEADER_SIZE - 1, [];
    }

    method Reset()
      requires Valid()
      modifies this
      ensures Valid() && list == []
    {
      nentry, nend, list := 0, HEADER_SIZE - 1, [];
    }

    /** The bytes from offset z on are those of the list from entry i on. */
    lemma BytesFrom(z: nat, i: nat)
      requires Valid() && i <= |list| && z == HEADER_SIZE + Off(list, i)
      ensures z <= nend + 1 <= buf.Length && buf[HEADER_SIZE..z] == Enc(list[..i]) && buf[z..nend + 1] == Enc(list[i..])
    {
      hide Enc, Encode, AllStorable;
      EncFrom(list, i);
      SliceOf(buf[..], HEADER_SIZE, z, z, nend + 1);
    }

    /** The n bytes at z are the entry of value v; its length and value are read from its first bytes, or its last. */
    ghost predicate Shows(z: nat, n: nat, v: Blob)
      reads this, buf
    {
      && 2 <= n && z + n <= nend + 1 <= buf.Length && Storable(v) && buf[z..z + n] == Encode(v)
      && EntryLen(buf[z..nend + 1]) == n == buf[z + n - 1] && Decode(buf[z..nend + 1]) == v
    }

    /** The entry of index i, as the bytes show it. */
    lemma EntryAt(i: nat)
      requires Valid() && i < |list|
      ensures Shows(HEADER_SIZE + Off(list, i), |Encode(list[i])|, list[i])
      ensures Off(list, i) + |Encode(list[i])| == Off(list, i + 1)
    {
      hide Enc, Encode, Decode, EntryLen, Off;
      var z, n := HEADER_SIZE + Off(list, i), |Encode(list[i])|;
      EncEntry(list, i);
      EntryIn(list, i);
      BytesFrom(z, i);
      SliceOf(buf[..], z, z, z + n, nend + 1);
      assert buf[z + n - 1] == buf[z..z + n][n - 1];
    }

    /** The length of the entry at z. */
    method LenAt(z: nat, ghost i: nat) returns (n: nat)
      requires Valid() && i < |list| && z == HEADER_SIZE + Off(list, i)
      ensures n == |Encode(list[i])| && z + n == HEADER_SIZE + Off(list, i + 1) <= nend + 1
    {
      hide Enc, Encode, Decode;
      EntryAt(i);
      n := EntryLen(buf[z..nend + 1]);
    }

    method FromLeft(idx: nat) returns (z: nat)
      requires Valid() && idx < |list|
      ensures z == HEADER_SIZE + Off(list, idx)
    {
      hide Encode, Decode;
      z := HEADER_SIZE;
      for k := 0 to idx
        invariant z == HEADER_SIZE + Off(list, k)
      {
        var n := LenAt(z, k);
        z := z + n;
      }
    }

    method FromRight(idx: nat) returns (z: nat)
      requires Valid() && idx < |list|
      ensures z == HEADER_SIZE + Off(list, |list| - 1 - idx)
    {
      hide Enc, Encode, Decode, EntryLen;
      var p := nend;
      assert list[..|list|] == list;
      for k := 0 to idx
        invariant p + 1 == HEADER_SIZE + Off(list, |list| - k)
      {
        EntryAt(|list| - 1 - k);
        p := p - buf[p];
      }
      EntryAt(|list| - 1 - idx);
      z := p - buf[p] + 1;
    }

    /** The entry of an index, counted from the end if negative; it is walked to from the nearer side. */
    method Locate(idx: int) returns (st: Status, z: nat)
      requires Valid()
      ensures var i := if idx < 0 then idx + |list| else idx;
              && (st == Ok <==> 0 <= i < |list|) && (st == Ok || st == OutOfBounds)
              && (st == Ok ==> z == HEADER_SIZE + Off(list, i) && z + 2 <= nend + 1)
    {
      hide Enc, Encode, Decode, EntryLen;
      z := 0;
      var i := if idx < 0 then idx + nentry else idx;
      if i < 0 || i >= nentry {
        return OutOfBounds, 0;
      }
      if i * 3 < nentry {
        z := FromLeft(i);
      } else {
        z := FromRight(nentry - 1 - i);
      }
      EntryAt(i);
      st := Ok;
    }

    /** The value of the entry of an index. */
    method Get(idx: int) returns (st: Status, b: Blob)
      requires Valid()
      ensures var i := if idx < 0 then idx + |list| else idx;
              if 0 <= i < |list| then st == Ok && b == list[i] else st == OutOfBounds
    {
      hide Enc, Encode, Decode, EntryLen;
      var z;
      st, z := Locate(idx);
      b := Unknown;
      if st == Ok {
        EntryAt(if idx < 0 then idx + |list| else idx);
        b := Decode(buf[z..nend + 1]);
      }
    }

    /** Comparing the bytes at entry i with those of a value, as far as the list goes, compares the values. */
    lemma MatchAt(i: nat, val: Blob)
      requires Valid() && i < |list| && Storable(val)
      ensures var z := HEADER_SIZE + Off(list, i);
              z <= nend + 1 && var m := Min(nend + 1 - z, |Encode(val)|);
              (buf[z..z + m] == Encode(val)[..m] <==> list[i] == val)
    {
      hide Enc, Encode, Decode, EntryLen, Off;
      var z := HEADER_SIZE + Off(list, i);
      EncFirst(list, i);
      TruncatedMatch(list[i], Enc(list[i + 1..]), val);
      BytesFrom(z, i);
      var m := Min(nend + 1 - z, |Encode(val)|);
      SliceOf(buf[..], z, z, z + m, nend + 1);
    }

    /** The first entry with a value. Entries are compared in encoded form, and not past the list's end. */
    method Find(val: Blob) returns (st: Status, idx: int, z: nat)
      requires Valid()
      ensures st == Invalid <==> !Storable(val)
      ensures st == Ok <==> val in list
      ensures st == Ok ==> 0 <= idx < |list| && list[idx] == val && val !in list[..idx]
      ensures st == Ok ==> z == HEADER_SIZE + Off(list, idx)
      ensures st == NotFound ==> idx == -1
      ensures st != OutOfBounds
    {
      hide Enc, Encode, Decode, EntryLen, AllStorable;
      z := 0;
      EncEmpty();
      if !Storable(val) {
        NotStored(list, val);
        return Invalid, 0, 0;
      }
      var e := Encode(val);
      z := HEADER_SIZE;
      for i := 0 to nentry
        invariant z == HEADER_SIZE + Off(list, i) && val !in list[..i]
      {
        MatchAt(i, val);
        var m := Min(nend + 1 - z, |e|);
        if MemCmp(buf[z..z + m], e[..m]) == 0 {
          return Ok, i, z;
        }
        NotBefore(list, i, val);
        var n := LenAt(z, i);
        z := z + n;
      }
      assert list[..|list|] == list;
      return NotFound, -1, 0;
    }

    /** Copy n bytes; the source and the destination may overlap. */
    method MemMove(dst: nat, src: nat, n: nat)
      requires dst + n <= buf.Length && src + n <= buf.Length
      modifies buf
      ensures buf[dst..dst + n] == old(buf[src..src + n])
      ensures buf[..dst] == old(buf[..dst]) && buf[dst + n..] == old(buf[dst + n..])
    {
      forall k | 0 <= k < n {
        buf[dst + k] := buf[src + k];
      }
    }

    method Write(z: nat, e: seq<Byte>)
      requires z + |e| <= buf.Length
      modifies buf
      ensures buf[z..z + |e|] == e
      ensures buf[..z] == old(buf[..z]) && buf[z + |e|..] == old(buf[z + |e|..])
    {
      forall k | 0 <= k < |e| {
        buf[z + k] := e[k];
      }
    }

    /** Take out the entries from index i up to j, which begin at offsets `begin` and `end`. */
    method Cut(begin: nat, end: nat, count: nat, ghost i: nat, ghost j: nat)
      requires Valid() && i <= j <= |list| && count == j - i
      requires begin == HEADER_SIZE + Off(list, i) && end == HEADER_SIZE + Off(list, j)
      modifies this, buf
      ensures Valid() && list == old(list)[..i] + old(list)[j..]
    {
      hide Enc, Encode, Decode, EntryLen;
      EncBetween(list, i, j);
      ghost var b, top := buf[..], nend + 1;
      MemMove(begin, end, nend + 1 - end);
      CutBytes(b, buf[..], begin, end, top);
      nentry := nentry - count;
      nend := nend - (end - begin);
      list := list[..i] + list[j..];
    }

    /** Write a value at offset z, where entry i begins, when there is room for it before the rest. */
    method Add(z: nat, val: Blob, ghost i: nat, ghost l: seq<Blob>)
      requires AllStorable(l) && nentry == |l| && i <= |l| && Storable(val) && z == HEADER_SIZE + Off(l, i)
      requires nend + 1 == HEADER_SIZE + |Enc(l)| && nend + 1 + |Encode(val)| <= buf.Length
      requires z <= nend + 1 && buf[HEADER_SIZE..z] == Enc(l[..i])
      requires buf[z + |Encode(val)|..nend + 1 + |Encode(val)|] == Enc(l[i..])
      modifies this, buf
      ensures Valid() && list == l[..i] + [val] + l[i..]
    {
      hide Enc, Encode, Decode, EntryLen;
      var e := Encode(val);
      var n := |e|;
      ghost var front, back := buf[HEADER_SIZE..z], buf[z + n..nend + 1 + n];
      ghost var all := buf[..];
      Write(z, e);
      assert buf[HEADER_SIZE..z] == front by {
        assert buf[HEADER_SIZE..z] == buf[..z][HEADER_SIZE..];
        assert all[..z] == buf[..z];
        assert front == all[..z][HEADER_SIZE..];
      }
      assert buf[z + n..nend + 1 + n] == back by {
        assert buf[z + n..][..nend + 1 - z] == buf[z + n..nend + 1 + n];
        assert all[z + n..] == buf[z + n..];
        assert back == all[z + n..][..nend + 1 - z];
      }
      nentry := nentry + 1;
      nend := nend + n;
      list := l[..i] + [val] + l[i..];
      EncInsert(l, i, val);
      EncSplit(l, i);
      assert buf[HEADER_SIZE..nend + 1] == front + e + back;
    }

    /** Make room for sz bytes at offset z, where entry i begins. */
    method Shift(z: nat, sz: nat, ghost i: nat)
      requires Valid() && i <= |list| && z == HEADER_SIZE + Off(list, i) && nend + 1 + sz <= buf.Length
      modifies buf
      ensures z <= nend + 1 && buf[HEADER_SIZE..z] == Enc(list[..i]) && buf[z + sz..nend + 1 + sz] == Enc(list[i..])
    {
      hide Enc, Encode, Decode, EntryLen, Off;
      BytesFrom(z, i);
      ghost var b := buf[..];
      MemMove(z + sz, z, nend + 1 - z);
      SameFront(b, buf[..], HEADER_SIZE, z, z + sz);
    }

    /** Insert a value before the entry of index idx, or at the end. */
    method Insert(val: Blob, idx: int) returns (st: Status)
      requires Valid() && (Storable(val) ==> nend + 1 + |Encode(val)| <= buf.Length)
      modifies this, buf
      ensures Valid()
      ensures var i := if idx < 0 then idx + old(|list|) else idx;
              if !Storable(val) then st == Invalid && list == old(list)
              else if 0 <= i <= old(|list|) then st == Ok && list == old(list)[..i] + [val] + old(list)[i..]
              else st == OutOfBounds && list == old(list)
    {
      hide Enc, Encode, Decode, EntryLen;
      if !Storable(val) {
        return Invalid;
      }
      var i := if idx < 0 then idx + nentry else idx;
      if i < 0 || i > nentry {
        return OutOfBounds;
      }
      ghost var l := list;
      var z;
      if i == nentry {
        z := nend + 1;
        EncAll(l);
      } else {
        var sz := |Encode(val)|;
        st, z := Locate(i);
        Shift(z, sz, i);
      }
      Add(z, val, i, l);
      st := Ok;
    }

    /** Append a value. */
    method Push(val: Blob) returns (st: Status)
      requires Valid() && (Storable(val) ==> nend + 1 + |Encode(val)| <= buf.Length)
      modifies this, buf
      ensures Valid()
      ensures if Storable(val) then st == Ok && list == old(list) + [val] else st == Invalid && list == old(list)
    {
      hide Enc, Encode, Decode, EntryLen;
      if !Storable(val) {
        return Invalid;
      }
      EncAll(list);
      EncSplit(list, |list|);
      assert list[..|list|] == list && list + [val] + list[|list|..] == list + [val];
      Add(nend + 1, val, |list|, list);
      st := Ok;
    }

    /** Take off the last entry. */
    method Pop() returns (st: Status, val: Blob)
      requires Valid()
      modifies this
      ensures Valid()
      ensures if old(list) == [] then st == OutOfBounds && list == []
              else st == Ok && val == old(list)[old(|list|) - 1] && list == old(list)[..old(|list|) - 1]
    {
      hide Enc, Encode, Decode, EntryLen;
      val := Unknown;
      if nentry == 0 {
        return OutOfBounds, val;
      }
      ghost var i, l := |list| - 1, list;
      var z := FromRight(0);
      EntryAt(i);
      EncAll(list);
      EncSplit(list, i);
      val := Decode(buf[z..nend + 1]);
      Slices(buf[..], nend + 1, Off(list, i), Off(list, i));
      nentry := nentry - 1;
      nend := nend - buf[nend];
      list := list[..i];
      st := Ok;
    }

    /** Where the entry begins that is c entries behind the one at z. */
    method Skip(z: nat, c: nat, ghost i: nat) returns (end: nat)
      requires Valid() && i + c <= |list| && z == HEADER_SIZE + Off(list, i)
      ensures end == HEADER_SIZE + Off(list, i + c)
    {
      hide Enc, Encode, Decode, EntryLen;
      end := z;
      for k := 0 to c
        invariant end == HEADER_SIZE + Off(list, i + k)
      {
        var n := LenAt(end, i + k);
        end := end + n;
      }
    }

    /** Remove |count| entries: from index idx on, or those up to and including idx if count is negative. */
    method Remove(idx: int, count: int) returns (st: Status)
      requires Valid()
      modifies this, buf
      ensures Valid()
      ensures var n := old(|list|);
              var i := if idx < 0 then idx + n else idx;
              var from, to := if count < 0 then i + count + 1 else i, if count < 0 then i + 1 else i + count;
              if count == 0 then st == Ok && list == old(list)
              else if 0 <= from && to <= n then st == Ok && list == old(list)[..from] + old(list)[to..]
              else st == OutOfBounds && list == old(list)
    {
      hide Enc, Encode, Decode, EntryLen;
      if count == 0 {
        return Ok;
      }
      var i, c := if idx < 0 then idx + nentry else idx, count;
      if count < 0 {
        c := -count;
        i := i - c + 1;
      }
      if i < 0 || i > nentry || i + c - 1 >= nentry {
        return OutOfBounds;
      }
      var begin;
      st, begin := Locate(i);
      var end := Skip(begin, c, i);
      Cut(begin, end, c, i, i + c);
      st := Ok;
    }

    /** Remove entries from the front, or from the end if count is negative; all if there are no more. */
    method Truncate(count: int) returns (st: Status)
      requires Valid()
      modifies this, buf
      ensures Valid() && st == Ok
      ensures var n := old(|list|);
              list == if count >= n || -count >= n then (if count == 0 then old(list) else [])
                      else if count >= 0 then old(list)[count..]
                      else old(list)[..n + count]
    {
      hide Enc, Encode, Decode, EntryLen;
      if count == 0 {
        return Ok;
      }
      if count >= nentry || -count >= nentry {
        Reset();
        return Ok;
      }
      EncAll(list);
      EncEmpty();
      ghost var l := list;
      var begin, end, c;
      if count > 0 {
        begin, c := HEADER_SIZE, count;
        st, end := Locate(count);
        Cut(begin, end, c, 0, count);
        assert l[..0] + l[count..] == l[count..];
      } else {
        c := -count;
        end := nend + 1;
        st, begin := Locate(nentry - c);
        Cut(begin, end, c, |l| - c, |l|);
        assert l[..|l| - c] + l[|l|..] == l[..|l| + count];
      }
      st := Ok;
    }

    /** Keep at most count entries from idx on, or at most -count before idx if count is not positive. */
    method Trim(idx: int, count: int) returns (st: Status)
      requires Valid()
      modifies this, buf
      ensures Valid()
      ensures var n := old(|list|);
              var i := if idx < 0 then idx + n else idx;
              if !(0 <= i < n) then st == OutOfBounds && list == old(list)
              else
                && st == Ok
                && list == if count > 0 then old(list)[i..if i + count < n then i + count else n]
                           else old(list)[if i + count > 0 then i + count else 0..i]
    {
      hide Enc, Encode, Decode, EntryLen, Valid;
      NEntry();
      var i := if idx < 0 then idx + nentry else idx;
      if i < 0 || i >= nentry {
        return OutOfBounds;
      }
      ghost var l := list;
      if count > 0 {
        st := Truncate(i);
        NEntry();
        assert list == l[i..];
        if count < nentry {
          st := Truncate(-(nentry - count));
          assert list == l[i..][..count] == l[i..i + count];
        }
      } else {
        st := Truncate(-(nentry - i));
        NEntry();
        assert list == l[..i];
        if -count < nentry {
          st := Truncate(nentry + count);
          assert list == l[..i][i + count..] == l[i + count..i];
        }
      }
    }

    lemma NEntry()
      requires Valid()
      ensures nentry == |list|
    {
    }
  }

  lemma Slices(b: seq<Byte>, end: nat, i: nat, j: nat)
    requires HEADER_SIZE + i <= HEADER_SIZE + j <= end <= |b|
    ensures var e := b[HEADER_SIZE..end];
            b[HEADER_SIZE..HEADER_SIZE + i] == e[..i] && b[HEADER_SIZE + j..end] == e[j..]
    ensures b[..HEADER_SIZE + i][HEADER_SIZE..] == b[HEADER_SIZE..HEADER_SIZE + i]
  {
  }

  /** Moving what lies behind a gap down to its beginning closes it. */
  lemma CutBytes(b: seq<Byte>, b': seq<Byte>, begin: nat, end: nat, top: nat)
    requires HEADER_SIZE <= begin <= end <= top <= |b| == |b'| && b'[..begin] == b[..begin]
    requires b'[begin..begin + (top - end)] == b[end..top]
    ensures var e := b[HEADER_SIZE..top];
            b'[HEADER_SIZE..begin + (top - end)] == e[..begin - HEADER_SIZE] + e[end - HEADER_SIZE..]
  {
    var e, m := b[HEADER_SIZE..top], begin + (top - end);
    assert b'[..m] == b[..begin] + b[end..top];
    assert b'[HEADER_SIZE..m] == b'[..m][HEADER_SIZE..];
    assert e[..begin - HEADER_SIZE] == b[HEADER_SIZE..begin] && e[end - HEADER_SIZE..] == b[end..top];
  }

  lemma EncAll(l: seq<Blob>)
    requires AllStorable(l)
    ensures Off(l, |l|) == |Enc(l)| && Enc(l[|l|..]) == [] && Enc(l[..|l|]) == Enc(l)
  {
    assert l[..|l|] == l && l[|l|..] == [];
  }

  lemma EncInsert(l: seq<Blob>, i: nat, val: Blob)
    requires AllStorable(l) && i <= |l| && Storable(val)
    ensures var l' := l[..i] + [val] + l[i..];
            AllStorable(l') && Enc(l') == Enc(l[..i]) + Encode(val) + Enc(l[i..])
  {
    hide Enc, Encode;
    EncFirst([val], 0);
    EncConcat(l[..i], [val]);
    EncConcat(l[..i] + [val], l[i..]);
  }
}
