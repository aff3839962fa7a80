/**
 * Items of the segment store and the bytes of one segment.
 *
 * A segment is a run of items laid end to end from offset 0. Its memory is not
 * cleared when the segment is recycled, so it is kept here as a map from offsets
 * to what a reader of an item header would find there: a header written whole
 * (`Hdr`), a cleared header (`Zero`), or, where the map has no entry, junk.
 */
module SegItems {
  import opened Basics

  type Key = seq<Byte>

  /** Bytes before the optional data, key and value: 8-bit klen, 24-bit vlen, flags. */
  const ITEM_HDR_SIZE: nat := 5

  datatype Item = Item(key: Key, val: seq<Byte>, opt: seq<Byte>)

  /** The lengths the header's bit fields can hold, and a non-empty key. */
  predicate ItemOk(it: Item) {
    1 <= |it.key| < 0x100 && |it.val| < 0x100_0000 && |it.opt| < 0x40
  }

  /** The least multiple of 8 that is at least sz. */
  function RoundUp(sz: nat): (r: nat)
    requires 0 < sz
    ensures r % 8 == 0 && sz <= r < sz + 8
  {
    ((sz - 1) / 8 + 1) * 8
  }

  /** A value takes at least 8 bytes, so that a counter fits in its place. */
  function SizeFor(klen: nat, vlen: nat, olen: nat): (sz: nat)
    ensures sz % 8 == 0 && sz >= ITEM_HDR_SIZE + klen + olen + vlen
    ensures klen > 0 ==> sz >= 16
  {
    RoundUp(ITEM_HDR_SIZE + klen + olen + if vlen >= 8 then vlen else 8)
  }

  function ItemSize(it: Item): (sz: nat)
    ensures sz >= 8
    ensures ItemOk(it) ==> sz >= 16
  {
    SizeFor(|it.key|, |it.val|, |it.opt|)
  }

  datatype Cell = Hdr(item: Item) | Zero
  type Cells = map<nat, Cell>

  predicate HasItem(c: Cells, o: nat) {
    o in c && c[o].Hdr?
  }

  /** Items lie end to end from a to e. */
  predicate Tiles(c: Cells, a: nat, e: nat)
    decreases e - a
  {
    a == e ||
    (a < e && HasItem(c, a) && ItemOk(c[a].item) &&
     a + ItemSize(c[a].item) <= e && Tiles(c, a + ItemSize(c[a].item), e))
  }

  /** o is where one of the items between a and e begins. */
  predicate IsStart(c: Cells, a: nat, e: nat, o: nat)
    requires Tiles(c, a, e)
    decreases e - a
  {
    a < e && (o == a || IsStart(c, a + ItemSize(c[a].item), e, o))
  }

  lemma StartHasItem(c: Cells, a: nat, e: nat, o: nat)
    requires Tiles(c, a, e) && IsStart(c, a, e, o)
    ensures a <= o < e && HasItem(c, o) && ItemOk(c[o].item) && o + ItemSize(c[o].item) <= e
    decreases e - a
  {
  }

  /** What lies outside [a, e) does not matter to the items between them. */
  lemma {:induction false} TilesFrame(c: Cells, c': Cells, a: nat, e: nat)
    requires Tiles(c, a, e)
    requires forall o :: a <= o < e && o in c ==> o in c' && c'[o] == c[o]
    ensures Tiles(c', a, e)
    ensures forall o :: IsStart(c', a, e, o) <==> IsStart(c, a, e, o)
    decreases e - a
  {
    if a != e {
      TilesFrame(c, c', a + ItemSize(c[a].item), e);
    }
  }

  /** One more item at the end. */
  lemma {:induction false} TilesExtend(c: Cells, a: nat, e: nat, e': nat)
    requires Tiles(c, a, e) && HasItem(c, e) && ItemOk(c[e].item) && e' == e + ItemSize(c[e].item)
    ensures Tiles(c, a, e')
    ensures forall o :: IsStart(c, a, e', o) <==> IsStart(c, a, e, o) || o == e
    decreases e - a
  {
    if a != e {
      var b := a + ItemSize(c[a].item);
      TilesExtend(c, b, e, e');
      forall o ensures IsStart(c, a, e', o) <==> IsStart(c, a, e, o) || o == e {
        assert IsStart(c, b, e', o) <==> IsStart(c, b, e, o) || o == e;
      }
    } else {
      assert Tiles(c, e', e');
    }
  }

  /** Writing an item destroys whatever began inside its bytes. */
  function WriteItem(c: Cells, off: nat, it: Item): (c': Cells)
    ensures HasItem(c', off) && c'[off].item == it
    ensures forall o :: o in c && o < off ==> o in c' && c'[o] == c[o]
  {
    (map o | o in c && !(off <= o < off + ItemSize(it)) :: c[o])[off := Hdr(it)]
  }

  /** Clearing the rest of a segment. */
  function ZeroFrom(c: Cells, off: nat): (c': Cells)
    ensures off in c' && c'[off] == Zero
    ensures forall o :: o in c && o < off ==> o in c' && c'[o] == c[o]
  {
    (map o | o in c && o < off :: c[o])[off := Zero]
  }

  /**
   * The items of a segment end at e. Either the write offset is there too, or a
   * reservation that did not fit pushed it past the segment size, and then a cleared
   * header marks the end unless the items fill the segment.
   */
  predicate SegTiled(c: Cells, segSize: nat, wo: int, e: nat) {
    e <= segSize && Tiles(c, 0, e) &&
    (wo == e || (wo > segSize && (e < segSize ==> e in c && c[e] == Zero)))
  }

  /**
   * Where a walk over a segment's items stops reading. The difference is unsigned, so for an
   * offset smaller than a header it is near 2^32.
   */
  function Limit(wo: int, segSize: nat): (limit: int)
    ensures limit == Min(wo, segSize) - ITEM_HDR_SIZE <==> Min(wo, segSize) >= ITEM_HDR_SIZE
  {
    var d := Min(wo, segSize) - ITEM_HDR_SIZE;
    if d >= 0 then d else d + 0x1_0000_0000
  }

  /** A segment with items has an offset past any header, so the limit does not wrap. */
  lemma LimitIs(c: Cells, segSize: nat, wo: int, e: nat)
    requires SegTiled(c, segSize, wo, e) && e > 0
    ensures e >= 16 && Min(wo, segSize) >= 16 && Limit(wo, segSize) == Min(wo, segSize) - ITEM_HDR_SIZE
  {
  }

  /** A walker standing at a tile boundary: where it stops and what it reads. */
  lemma WalkReads(c: Cells, segSize: nat, wo: int, e: nat, a: nat)
    requires SegTiled(c, segSize, wo, e) && e > 0 && Tiles(c, a, e)
    requires a < Limit(wo, segSize)
    ensures a in c
    ensures c[a].Zero? <==> a == e
    ensures c[a].Hdr? ==> Tiles(c, a + ItemSize(c[a].item), e)
  {
    LimitIs(c, segSize, wo, e);
  }

  lemma WalkStops(c: Cells, segSize: nat, wo: int, e: nat, a: nat)
    requires SegTiled(c, segSize, wo, e) && e > 0 && Tiles(c, a, e) && a <= e
    requires a >= Limit(wo, segSize)
    ensures a == e
  {
    LimitIs(c, segSize, wo, e);
  }

  /** Appending an item keeps the segment tiled and adds exactly its own start. */
  lemma WriteExtends(c: Cells, segSize: nat, e: nat, it: Item, c': Cells, e': nat)
    requires SegTiled(c, segSize, e, e) && ItemOk(it) && e + ItemSize(it) <= segSize
    requires c' == WriteItem(c, e, it) && e' == e + ItemSize(it)
    ensures SegTiled(c', segSize, e', e')
    ensures forall o :: IsStart(c', 0, e', o) <==> IsStart(c, 0, e, o) || o == e
  {
    TilesFrame(c, c', 0, e);
    TilesExtend(c', 0, e, e');
  }
}
