/**
 * Entries of a ziplist: a value is encoded in a run of bytes whose beginning tells how long it
 * is, and whose last byte tells so again, for readers that come from behind.
 */
module ZipEntry {
  import opened Basics

  type U64 = x: int | 0 <= x < 0x1_0000_0000_0000_0000

  datatype Blob = Unknown | Int(n: U64) | Str(s: seq<Byte>)

  const U8_MAX: nat := 250
  const U16: Byte := 251
  const U24: Byte := 252
  const U56: Byte := 253
  const U64_TAG: Byte := 254
  const STR: Byte := 255
  const STR_MAXLEN: nat := 252

  /** What can be stored. */
  predicate Storable(b: Blob) { b.Int? || (b.Str? && |b.s| <= STR_MAXLEN) }

  // ---------------------------------------------------------------------------
  // Little-endian numbers
  // ---------------------------------------------------------------------------

  function Pow256(k: nat): (p: nat)
    ensures p > 0
  {
    if k == 0 then 1 else 256 * Pow256(k - 1)
  }

  function ToLE(n: nat, k: nat): (s: seq<Byte>)
    ensures |s| == k
  {
    if k == 0 then [] else [n % 256] + ToLE(n / 256, k - 1)
  }

  function FromLE(s: seq<Byte>): nat {
    if s == [] then 0 else s[0] + 256 * FromLE(s[1..])
  }

  lemma {:induction false} LittleEndian(n: nat, k: nat)
    requires n < Pow256(k)
    ensures FromLE(ToLE(n, k)) == n
  {
    if k > 0 {
      LittleEndian(n / 256, k - 1);
      assert ToLE(n, k)[1..] == ToLE(n / 256, k - 1);
    }
  }

  lemma Powers()
    ensures Pow256(2) == 0x1_0000 && Pow256(3) == 0x100_0000
    ensures Pow256(7) == 0x100_0000_0000_0000 && Pow256(8) == 0x1_0000_0000_0000_0000
  {
    assert Pow256(3) == 256 * Pow256(2) == 256 * 256 * Pow256(1);
    assert Pow256(8) == 256 * Pow256(7) == 256 * 256 * Pow256(6) == 256 * 256 * 256 * Pow256(5);
    assert Pow256(5) == 256 * Pow256(4) == 256 * 256 * Pow256(3);
  }

  // ---------------------------------------------------------------------------
  // Encoding
  // ---------------------------------------------------------------------------

  function Encode(b: Blob): (e: seq<Byte>)
    requires Storable(b)
    ensures 2 <= |e| <= 255 && e[|e| - 1] == |e|
  {
    match b
    case Int(n) =>
      if n <= U8_MAX then [n, 2]
      else if n < 0x1_0000 then [U16] + ToLE(n, 2) + [4]
      else if n < 0x100_0000 then [U24] + ToLE(n, 3) + [5]
      else if n < 0x100_0000_0000_0000 then [U56] + ToLE(n, 7) + [9]
      else [U64_TAG] + ToLE(n, 8) + [10]
    case Str(s) => [STR, |s|] + s + [|s| + 3]
  }

  /** How long an entry is, from its first bytes. */
  function EntryLen(s: seq<Byte>): nat
    requires |s| >= 2
  {
    if s[0] <= U8_MAX then 2
    else if s[0] == U16 then 4
    else if s[0] == U24 then 5
    else if s[0] == U56 then 9
    else if s[0] == U64_TAG then 10
    else 3 + (s[1] as int)
  }

  function Decode(s: seq<Byte>): (b: Blob)
    requires |s| >= 2 && |s| >= EntryLen(s)
  {
    if s[0] <= U8_MAX then Int(s[0])
    else if s[0] == U16 then LEInt(s[1..3])
    else if s[0] == U24 then LEInt(s[1..4])
    else if s[0] == U56 then LEInt(s[1..8])
    else if s[0] == U64_TAG then LEInt(s[1..9])
    else Str(s[2..2 + s[1]])
  }

  function LEInt(s: seq<Byte>): Blob
    requires |s| <= 8
  {
    LEBound(s); Powers();
    Int(FromLE(s))
  }

  lemma {:induction false} LEBound(s: seq<Byte>)
    ensures FromLE(s) < Pow256(|s|)
    ensures |s| <= 8 ==> Pow256(|s|) <= Pow256(8)
  {
    if s != [] {
      LEBound(s[1..]);
    }
    if |s| < 8 {
      PowGrows(|s|, 8);
    }
  }

  lemma {:induction false} PowGrows(j: nat, k: nat)
    requires j <= k
    ensures Pow256(j) <= Pow256(k)
  {
    if j < k {
      PowGrows(j, k - 1);
    }
  }

  /** An entry is read back as what was written, whatever follows it. */
  lemma RoundTrip(b: Blob, rest: seq<Byte>)
    requires Storable(b)
    ensures var s := Encode(b) + rest;
            EntryLen(s) == |Encode(b)| && Decode(s) == b
  {
    var e := Encode(b);
    var s := e + rest;
    assert s[0] == e[0] && s[1] == e[1];
    Powers();
    match b
    case Int(n) =>
      if n <= U8_MAX {
      } else if n < 0x1_0000 {
        LittleEndian(n, 2);
        assert s[1..3] == ToLE(n, 2);
      } else if n < 0x100_0000 {
        LittleEndian(n, 3);
        assert s[1..4] == ToLE(n, 3);
      } else if n < 0x100_0000_0000_0000 {
        LittleEndian(n, 7);
        assert s[1..8] == ToLE(n, 7);
      } else {
        LittleEndian(n, 8);
        assert s[1..9] == ToLE(n, 8);
      }
    case Str(t) =>
      assert s[2..2 + |t|] == t;
  }

  /** No entry is the beginning of another: one that begins with it is it. */
  lemma PrefixFree(a: Blob, b: Blob, rest: seq<Byte>, rest': seq<Byte>)
    requires Storable(a) && Storable(b) && Encode(a) + rest == Encode(b) + rest'
    ensures a == b && rest == rest'
  {
    RoundTrip(a, rest);
    RoundTrip(b, rest');
    assert (Encode(a) + rest)[|Encode(a)|..] == rest;
    assert (Encode(b) + rest')[|Encode(b)|..] == rest';
  }

  lemma Injective(a: Blob, b: Blob)
    requires Storable(a) && Storable(b) && Encode(a) == Encode(b)
    ensures a == b
  {
    PrefixFree(a, b, [], []);
  }

  // ---------------------------------------------------------------------------
  // Comparing
  // ---------------------------------------------------------------------------

  /** Bytes compared by the number of the first that differ: less, equal or greater. */
  function MemCmp(s: seq<Byte>, t: seq<Byte>): (r: int)
    requires |s| == |t|
    ensures r == 0 <==> s == t
  {
    if s == [] then 0
    else if s[0] != t[0] then s[0] - t[0]
    else
      assert s == [s[0]] + s[1..] && t == [t[0]] + t[1..];
      MemCmp(s[1..], t[1..])
  }

  /**
   * The search compares as many bytes as the sought entry has, or as there are up to the end of
   * the list if those are fewer. It matches an entry just when that has the sought value.
   */
  lemma TruncatedMatch(a: Blob, rest: seq<Byte>, v: Blob)
    requires Storable(a) && Storable(v)
    ensures var s, e := Encode(a) + rest, Encode(v);
            var m := Min(|s|, |e|);
            s[..m] == e[..m] <==> a == v
  {
    hide Encode;
    var s, e := Encode(a) + rest, Encode(v);
    var m := Min(|s|, |e|);
    if a == v {
      assert s[..m] == Encode(a) == e[..m];
    } else if s[..m] == e[..m] {
      if |s| <= |e| {
        assert e == s[..m] + e[m..] && s[..m] == s;
        assert Encode(a) + (rest + e[m..]) == e + [];
        PrefixFree(a, v, rest + e[m..], []);
      } else {
        assert s == s[..m] + s[m..] && e[..m] == e;
        PrefixFree(a, v, rest, s[m..]);
      }
    }
  }

  // ---------------------------------------------------------------------------
  // The order of values
  // ---------------------------------------------------------------------------

  function Compare(a: int, b: int): int { if a < b then -1 else if a > b then 1 else 0 }

  /** Integers come before strings; strings are compared as far as both go, and then by length. */
  function BlobCompare(a: Blob, b: Blob): int
    requires !a.Unknown? && !b.Unknown?
  {
    if a.Int? && b.Int? then Compare(a.n, b.n)
    else if a.Int? then -1
    else if b.Int? then 1
    else
      var m := Min(|a.s|, |b.s|);
      var r := MemCmp(a.s[..m], b.s[..m]);
      if r == 0 then Compare(|a.s|, |b.s|) else r
  }

  /** The dictionary order of strings. */
  predicate Before(s: seq<Byte>, t: seq<Byte>) {
    t != [] && (s == [] || s[0] < t[0] || (s[0] == t[0] && Before(s[1..], t[1..])))
  }

  lemma {:induction false} CompareIsBefore(s: seq<Byte>, t: seq<Byte>)
    ensures BlobCompare(Str(s), Str(t)) < 0 <==> Before(s, t)
    ensures BlobCompare(Str(s), Str(t)) > 0 <==> Before(t, s)
  {
    if s != [] && t != [] {
      var m := Min(|s|, |t|);
      CompareIsBefore(s[1..], t[1..]);
      assert s[..m][1..] == s[1..][..m - 1] && t[..m][1..] == t[1..][..m - 1];
    }
  }

  lemma {:induction false} BeforeTotal(s: seq<Byte>, t: seq<Byte>)
    ensures Before(s, t) || s == t || Before(t, s)
    ensures !(Before(s, t) && Before(t, s)) && !(Before(s, t) && s == t)
  {
    if s != [] && t != [] {
      BeforeTotal(s[1..], t[1..]);
      assert s == [s[0]] + s[1..] && t == [t[0]] + t[1..];
    }
  }

  lemma {:induction false} BeforeTransitive(s: seq<Byte>, t: seq<Byte>, u: seq<Byte>)
    requires Before(s, t) && Before(t, u)
    ensures Before(s, u)
  {
    if s != [] && s[0] == t[0] == u[0] {
      BeforeTransitive(s[1..], t[1..], u[1..]);
    }
  }

  /** Comparing values is a total order, in which only equal values compare as equal. */
  lemma CompareOrders(a: Blob, b: Blob, c: Blob)
    requires !a.Unknown? && !b.Unknown? && !c.Unknown?
    ensures BlobCompare(a, b) == 0 <==> a == b
    ensures BlobCompare(a, b) < 0 <==> BlobCompare(b, a) > 0
    ensures BlobCompare(a, b) < 0 && BlobCompare(b, c) < 0 ==> BlobCompare(a, c) < 0
  {
    if a.Str? && b.Str? {
      CompareIsBefore(a.s, b.s);
      CompareIsBefore(b.s, a.s);
      BeforeTotal(a.s, b.s);
      if c.Str? {
        CompareIsBefore(b.s, c.s);
        CompareIsBefore(a.s, c.s);
        if Before(a.s, b.s) && Before(b.s, c.s) {
          BeforeTransitive(a.s, b.s, c.s);
        }
      }
    }
  }
}
