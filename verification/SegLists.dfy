/**
 * Doubly linked lists threaded through two arrays of segment numbers. -1 ends a list.
 * Each lemma is one way the store rewires a list, stated on the sequence the list spells.
 */
module SegLists {
  ghost predicate NoDup(q: seq<int>) {
    forall i, j :: 0 <= i < j < |q| ==> q[i] != q[j]
  }

  ghost predicate InRange(q: seq<int>, n: nat) {
    forall i :: 0 <= i < |q| ==> 0 <= q[i] < n
  }

  function Head(q: seq<int>): int { if q == [] then -1 else q[0] }

  function Tail(q: seq<int>): int { if q == [] then -1 else q[|q| - 1] }

  function Before(q: seq<int>, i: nat): int
    requires i < |q|
  {
    if i == 0 then -1 else q[i - 1]
  }

  function After(q: seq<int>, i: nat): int
    requires i < |q|
  {
    if i == |q| - 1 then -1 else q[i + 1]
  }

  /** prev and next spell q: they are inverse to each other along it and end at both ends. */
  ghost predicate Linked(prev: seq<int>, next: seq<int>, q: seq<int>) {
    && |prev| == |next| && InRange(q, |next|)
    && (forall i {:trigger prev[q[i]]} :: 0 <= i < |q| ==> prev[q[i]] == Before(q, i))
    && (forall i {:trigger next[q[i]]} :: 0 <= i < |q| ==> next[q[i]] == After(q, i))
  }

  function Without(q: seq<int>, i: nat): (r: seq<int>)
    requires i < |q|
    ensures |r| == |q| - 1
    ensures forall m {:trigger r[m]} :: 0 <= m < |r| ==> r[m] == if m < i then q[m] else q[m + 1]
  {
    q[..i] + q[i + 1..]
  }

  function Set(a: seq<int>, i: int, v: int): (r: seq<int>)
    requires i == -1 || 0 <= i < |a|
    ensures |r| == |a|
  {
    if i == -1 then a else a[i := v]
  }

  /** Writes to the links of segments outside q do not touch it. */
  lemma LinkedFrame(prev: seq<int>, next: seq<int>, prev': seq<int>, next': seq<int>, q: seq<int>)
    requires Linked(prev, next, q) && |prev'| == |prev| && |next'| == |next|
    requires forall i :: 0 <= i < |q| ==> prev'[q[i]] == prev[q[i]] && next'[q[i]] == next[q[i]]
    ensures Linked(prev', next', q)
  {
  }

  /** Unlinking position i joins its neighbours. */
  lemma LinkedRemove(prev: seq<int>, next: seq<int>, q: seq<int>, i: nat)
    requires Linked(prev, next, q) && NoDup(q) && i < |q|
    ensures NoDup(Without(q, i))
    ensures Linked(Set(prev, next[q[i]], prev[q[i]]), Set(next, prev[q[i]], next[q[i]]), Without(q, i))
  {
    var r := Without(q, i);
    var prev' := Set(prev, next[q[i]], prev[q[i]]);
    var next' := Set(next, prev[q[i]], next[q[i]]);
    forall m | 0 <= m < |r|
      ensures prev'[r[m]] == Before(r, m)
      ensures next'[r[m]] == After(r, m)
    {
      assert m != i ==> prev'[r[m]] == prev[r[m]];
      assert m != i - 1 ==> next'[r[m]] == next[r[m]];
    }
  }

  lemma LinkedAppend(prev: seq<int>, next: seq<int>, q: seq<int>, s: int)
    requires Linked(prev, next, q) && NoDup(q) && 0 <= s < |next| && s !in q
    requires next[s] == -1
    ensures NoDup(q + [s])
    ensures Linked(prev[s := Tail(q)], Set(next, Tail(q), s), q + [s])
  {
    var r := q + [s];
    var prev' := prev[s := Tail(q)];
    var next' := Set(next, Tail(q), s);
    forall m | 0 <= m < |r|
      ensures prev'[r[m]] == Before(r, m)
      ensures next'[r[m]] == After(r, m)
    {
      if m < |q| {
        assert r[m] == q[m] && q[m] in q;
        assert m < |q| - 1 ==> next'[q[m]] == next[q[m]];
      }
    }
  }

  lemma LinkedReplace(prev: seq<int>, next: seq<int>, q: seq<int>, i: nat, s: int)
    requires Linked(prev, next, q) && NoDup(q) && i < |q| - 1 && 0 <= s < |next| && s !in q
    ensures NoDup(q[i := s])
    ensures Linked(prev[next[q[i]] := s][s := prev[q[i]]], Set(next, prev[q[i]], s)[s := next[q[i]]], q[i := s])
  {
    var r := q[i := s];
    var prev' := prev[next[q[i]] := s][s := prev[q[i]]];
    var next' := Set(next, prev[q[i]], s)[s := next[q[i]]];
    forall m | 0 <= m < |q|
      ensures prev'[r[m]] == Before(r, m)
      ensures next'[r[m]] == After(r, m)
    {
      assert q[m] in q;
      if m != i {
        assert r[m] == q[m];
        assert m != i + 1 ==> prev'[q[m]] == prev[q[m]];
        assert m != i - 1 ==> next'[q[m]] == next[q[m]];
      }
    }
  }

  lemma LinkedPush(prev: seq<int>, next: seq<int>, q: seq<int>, s: int)
    requires Linked(prev, next, q) && NoDup(q) && 0 <= s < |next| && s !in q
    ensures NoDup([s] + q)
    ensures Linked(Set(prev[s := -1], Head(q), s), next[s := Head(q)], [s] + q)
  {
    var r := [s] + q;
    var prev' := Set(prev[s := -1], Head(q), s);
    var next' := next[s := Head(q)];
    forall m | 0 <= m < |r|
      ensures prev'[r[m]] == Before(r, m)
      ensures next'[r[m]] == After(r, m)
    {
      if m > 0 {
        assert r[m] == q[m - 1] && q[m - 1] in q;
        assert m > 1 ==> prev'[q[m - 1]] == prev[q[m - 1]];
      }
    }
  }

  lemma LinkedPop(prev: seq<int>, next: seq<int>, q: seq<int>)
    requires Linked(prev, next, q) && NoDup(q) && q != []
    ensures NoDup(q[1..])
    ensures next[q[0]] == Head(q[1..])
    ensures Linked(Set(prev, Head(q[1..]), -1), next, q[1..])
  {
  }

  // ---------------------------------------------------------------------------
  // All lists of the store
  // ---------------------------------------------------------------------------

  /** Owners that are not TTL buckets: the free pool, and a caller holding the segment. */
  const FREE: int := -1
  const HELD: int := -2

  /** The links and counters as stored. */
  datatype Links = Links(
    prev: seq<int>, next: seq<int>,
    first: seq<int>, last: seq<int>, nSeg: seq<int>,
    freeHead: int, nFree: int)

  /** What they spell: each TTL bucket's list, the free pool, and for each segment the one list it is in. */
  datatype Spelling = Spelling(chains: seq<seq<int>>, free: seq<int>, owner: seq<int>)

  ghost predicate Shape(l: Links, w: Spelling) {
    && |l.prev| == |l.next| == |w.owner|
    && |l.first| == |l.last| == |l.nSeg| == |w.chains|
  }

  ghost predicate Owned(owner: seq<int>, q: seq<int>, b: int) {
    InRange(q, |owner|) && forall i :: 0 <= i < |q| ==> owner[q[i]] == b
  }

  ghost predicate ChainOk(l: Links, w: Spelling, b: nat)
    requires Shape(l, w) && b < |w.chains|
  {
    && Linked(l.prev, l.next, w.chains[b]) && NoDup(w.chains[b]) && Owned(w.owner, w.chains[b], b)
    && l.first[b] == Head(w.chains[b]) && l.last[b] == Tail(w.chains[b]) && l.nSeg[b] == |w.chains[b]|
  }

  ghost predicate FreeOk(l: Links, w: Spelling)
    requires Shape(l, w)
  {
    && Linked(l.prev, l.next, w.free) && NoDup(w.free) && Owned(w.owner, w.free, FREE)
    && l.freeHead == Head(w.free) && l.nFree == |w.free|
  }

  /** A segment is in the list its owner names. */
  ghost predicate Placed(w: Spelling, s: nat)
    requires s < |w.owner|
  {
    || w.owner[s] == HELD
    || (w.owner[s] == FREE && s in w.free)
    || (0 <= w.owner[s] < |w.chains| && s in w.chains[w.owner[s]])
  }

  /** Links and counts agree with the lists, and every segment is in exactly one of them or held. */
  ghost predicate ListsOk(l: Links, w: Spelling) {
    && Shape(l, w)
    && (forall b :: 0 <= b < |w.chains| ==> ChainOk(l, w, b))
    && FreeOk(l, w)
    && (forall s :: 0 <= s < |w.owner| ==> Placed(w, s))
  }

  /** The links and owners along one list are the same in l' and w' as in l and w. */
  ghost predicate SameAlong(l: Links, w: Spelling, l': Links, w': Spelling, q: seq<int>)
    requires Shape(l, w) && Shape(l', w') && |l'.next| == |l.next| && InRange(q, |l.next|)
  {
    forall i :: 0 <= i < |q| ==>
      l'.prev[q[i]] == l.prev[q[i]] && l'.next[q[i]] == l.next[q[i]] && w'.owner[q[i]] == w.owner[q[i]]
  }

  lemma ChainFrame(l: Links, w: Spelling, l': Links, w': Spelling, b: nat)
    requires Shape(l, w) && Shape(l', w') && |l'.next| == |l.next| && |w'.chains| == |w.chains| && b < |w.chains|
    requires ChainOk(l, w, b) && w'.chains[b] == w.chains[b] && SameAlong(l, w, l', w', w.chains[b])
    requires l'.first[b] == l.first[b] && l'.last[b] == l.last[b] && l'.nSeg[b] == l.nSeg[b]
    ensures ChainOk(l', w', b)
  {
    LinkedFrame(l.prev, l.next, l'.prev, l'.next, w.chains[b]);
  }

  lemma FreeFrame(l: Links, w: Spelling, l': Links, w': Spelling)
    requires Shape(l, w) && Shape(l', w') && |l'.next| == |l.next|
    requires FreeOk(l, w) && SameAlong(l, w, l', w', w.free)
    requires w'.free == w.free && l'.freeHead == l.freeHead && l'.nFree == l.nFree
    ensures FreeOk(l', w')
  {
    LinkedFrame(l.prev, l.next, l'.prev, l'.next, w.free);
  }

  lemma WithoutHas(q: seq<int>, i: nat, x: int)
    requires i < |q| && x in q && x != q[i]
    ensures x in Without(q, i)
  {
    var m :| 0 <= m < |q| && q[m] == x;
    assert Without(q, i)[if m < i then m else m - 1] == x;
  }

  /** Links that may be followed from segment s. */
  predicate Follows(l: Links, s: int) {
    && |l.prev| == |l.next| && 0 <= s < |l.next|
    && -1 <= l.prev[s] < |l.next| && -1 <= l.next[s] < |l.next|
  }

  /** Unlinking segment s from bucket b's list. */
  function Removed(l: Links, b: nat, s: nat): Links
    requires Follows(l, s) && b < |l.first| == |l.last| == |l.nSeg|
  {
    var p, nx := l.prev[s], l.next[s];
    l.(next := Set(l.next, p, nx), prev := Set(l.prev, nx, p),
       first := if p == -1 then l.first[b := nx] else l.first,
       last := if nx == -1 then l.last[b := p] else l.last,
       nSeg := l.nSeg[b := l.nSeg[b] - 1])
  }

  function RemovedAt(w: Spelling, b: nat, i: nat): Spelling
    requires b < |w.chains| && i < |w.chains[b]| && 0 <= w.chains[b][i] < |w.owner|
  {
    w.(chains := w.chains[b := Without(w.chains[b], i)], owner := w.owner[w.chains[b][i] := HELD])
  }

  lemma RemovedOk(l: Links, w: Spelling, b: nat, i: nat)
    requires ListsOk(l, w) && b < |w.chains| && i < |w.chains[b]|
    ensures Follows(l, w.chains[b][i])
    ensures ListsOk(Removed(l, b, w.chains[b][i]), RemovedAt(w, b, i))
  {
    assert ChainOk(l, w, b);
    var q := w.chains[b];
    var s := q[i];
    assert l.prev[s] == Before(q, i) && l.next[s] == After(q, i);
    var l', w' := Removed(l, b, s), RemovedAt(w, b, i);
    assert ChainOk(l', w', b) by {
      LinkedRemove(l.prev, l.next, q, i);
    }
    forall c | 0 <= c < |w.chains| && c != b ensures ChainOk(l', w', c) {
      assert ChainOk(l, w, c);
      ChainFrame(l, w, l', w', c);
    }
    FreeFrame(l, w, l', w');
    forall t | 0 <= t < |w.owner| ensures Placed(w', t) {
      assert Placed(w, t);
      if w.owner[t] == b && t != s {
        WithoutHas(q, i, t);
      }
    }
  }

  /** Unlinking with the ends and count of a list the segment is not in leaves no lists. */
  lemma RemovedOnlyFromOwn(l: Links, w: Spelling, b: nat, i: nat, b': nat)
    requires ListsOk(l, w) && b < |w.chains| && i < |w.chains[b]| && b' < |w.chains|
    ensures Follows(l, w.chains[b][i])
    ensures ListsOk(Removed(l, b', w.chains[b][i]), RemovedAt(w, b, i)) <==> b' == b
  {
    RemovedOk(l, w, b, i);
    var l', w' := Removed(l, b', w.chains[b][i]), RemovedAt(w, b, i);
    if b' != b {
      assert ChainOk(l, w, b);
      assert l'.nSeg[b] != |w'.chains[b]|;
      assert !ChainOk(l', w', b);
    }
  }

  /** A held segment goes to the head of the free pool. */
  function Freed(l: Links, s: nat): Links
    requires |l.prev| == |l.next| && s < |l.next| && -1 <= l.freeHead < |l.next|
  {
    l.(next := l.next[s := l.freeHead], prev := Set(l.prev[s := -1], l.freeHead, s),
       freeHead := s, nFree := l.nFree + 1)
  }

  function FreedTo(w: Spelling, s: nat): Spelling
    requires s < |w.owner|
  {
    w.(free := [s] + w.free, owner := w.owner[s := FREE])
  }

  lemma FreedOk(l: Links, w: Spelling, s: nat)
    requires ListsOk(l, w) && s < |w.owner| && w.owner[s] == HELD
    ensures -1 <= l.freeHead < |l.next|
    ensures ListsOk(Freed(l, s), FreedTo(w, s))
  {
    var l', w' := Freed(l, s), FreedTo(w, s);
    assert s !in w.free;
    LinkedPush(l.prev, l.next, w.free, s);
    assert Owned(w'.owner, w'.free, FREE);
    forall c | 0 <= c < |w.chains| ensures ChainOk(l', w', c) {
      assert ChainOk(l, w, c);
      ChainFrame(l, w, l', w', c);
    }
    forall t | 0 <= t < |w.owner| ensures Placed(w', t) {
      assert Placed(w, t);
      assert t == s ==> w'.free[0] == t;
      assert t in w.free ==> t in w'.free;
    }
  }

  /** The head of the free pool is handed to a caller. */
  function Taken(l: Links): Links
    requires Follows(l, l.freeHead)
  {
    var nx := l.next[l.freeHead];
    l.(freeHead := nx, prev := Set(l.prev, nx, -1), nFree := l.nFree - 1)
  }

  function TakenFrom(w: Spelling): Spelling
    requires |w.free| > 0 && 0 <= w.free[0] < |w.owner|
  {
    w.(free := w.free[1..], owner := w.owner[w.free[0] := HELD])
  }

  lemma TakenOk(l: Links, w: Spelling)
    requires ListsOk(l, w) && l.nFree > 0
    ensures Follows(l, l.freeHead) && |w.free| > 0 && l.freeHead == w.free[0]
    ensures ListsOk(Taken(l), TakenFrom(w))
  {
    LinkedPop(l.prev, l.next, w.free);
    assert After(w.free, 0) == l.next[l.freeHead] && Before(w.free, 0) == l.prev[l.freeHead];
    var l', w' := Taken(l), TakenFrom(w);
    assert FreeOk(l', w');
    forall c | 0 <= c < |w.chains| ensures ChainOk(l', w', c) {
      assert ChainOk(l, w, c);
      ChainFrame(l, w, l', w', c);
    }
    forall t | 0 <= t < |w.owner| ensures Placed(w', t) {
      assert Placed(w, t);
      assert w.free == [l.freeHead] + w'.free;
    }
  }

  /** Initialising a held segment clears its links. */
  function Cleared(l: Links, s: nat): Links
    requires s < |l.next| == |l.prev|
  {
    l.(next := l.next[s := -1], prev := l.prev[s := -1])
  }

  lemma ClearedOk(l: Links, w: Spelling, s: nat)
    requires ListsOk(l, w) && s < |w.owner| && w.owner[s] == HELD
    ensures ListsOk(Cleared(l, s), w)
  {
    var l' := Cleared(l, s);
    forall c | 0 <= c < |w.chains| ensures ChainOk(l', w, c) {
      assert ChainOk(l, w, c);
      ChainFrame(l, w, l', w, c);
    }
    FreeFrame(l, w, l', w);
  }

  /** A held segment joins the end of bucket b's list. */
  function Appended(l: Links, b: nat, s: nat): Links
    requires b < |l.first| == |l.last| == |l.nSeg| && s < |l.next| == |l.prev| && -1 <= l.last[b] < |l.next|
  {
    l.(next := Set(l.next, l.last[b], s), prev := l.prev[s := l.last[b]],
       first := if l.first[b] == -1 then l.first[b := s] else l.first, last := l.last[b := s],
       nSeg := l.nSeg[b := l.nSeg[b] + 1])
  }

  function AppendedTo(w: Spelling, b: nat, s: nat): Spelling
    requires b < |w.chains| && s < |w.owner|
  {
    w.(chains := w.chains[b := w.chains[b] + [s]], owner := w.owner[s := b])
  }

  lemma AppendedOk(l: Links, w: Spelling, b: nat, s: nat)
    requires ListsOk(l, w) && b < |w.chains| && s < |w.owner| && w.owner[s] == HELD && l.next[s] == -1
    ensures -1 <= l.last[b] < |l.next| && (l.first[b] == -1 <==> l.last[b] == -1)
    ensures ListsOk(Appended(l, b, s), AppendedTo(w, b, s))
  {
    assert ChainOk(l, w, b);
    var q := w.chains[b];
    assert s !in q;
    var l', w' := Appended(l, b, s), AppendedTo(w, b, s);
    assert ChainOk(l', w', b) by {
      LinkedAppend(l.prev, l.next, q, s);
    }
    forall c | 0 <= c < |w.chains| && c != b ensures ChainOk(l', w', c) {
      assert ChainOk(l, w, c);
      ChainFrame(l, w, l', w', c);
    }
    FreeFrame(l, w, l', w');
    forall t | 0 <= t < |w.owner| ensures Placed(w', t) {
      assert Placed(w, t);
      assert w'.chains[b][|q|] == s;
      assert t in q ==> t in w'.chains[b];
    }
  }

  lemma UpdatedHas(q: seq<int>, i: nat, s: int, x: int)
    requires i < |q| && (x in q || x == s)
    ensures x in q[i := s] || x == q[i]
  {
    if x == s {
      assert q[i := s][i] == x;
    } else {
      var m :| 0 <= m < |q| && q[m] == x;
      assert m != i ==> q[i := s][m] == x;
    }
  }

  /** A held segment takes the place of segment o, which becomes held. */
  function Replaced(l: Links, b: nat, o: nat, s: nat): Links
    requires Follows(l, o) && l.next[o] != -1 && s < |l.next| && b < |l.first|
  {
    var p, nx := l.prev[o], l.next[o];
    l.(next := Set(l.next, p, s)[s := nx], prev := l.prev[nx := s][s := p],
       first := if p == -1 then l.first[b := s] else l.first)
  }

  function ReplacedAt(w: Spelling, b: nat, i: nat, s: nat): Spelling
    requires b < |w.chains| && i < |w.chains[b]| && 0 <= w.chains[b][i] < |w.owner| && s < |w.owner|
  {
    w.(chains := w.chains[b := w.chains[b][i := s]], owner := w.owner[s := b][w.chains[b][i] := HELD])
  }

  /** What the replaced segment's neighbours are. */
  lemma ReplacedAround(l: Links, w: Spelling, b: nat, i: nat, s: nat)
    requires ListsOk(l, w) && b < |w.chains| && i < |w.chains[b]| - 1 && s < |w.owner|
    ensures Follows(l, w.chains[b][i]) && l.next[w.chains[b][i]] != -1
    ensures l.prev[w.chains[b][i]] == Before(w.chains[b], i) && l.next[w.chains[b][i]] == After(w.chains[b], i)
    ensures Shape(Replaced(l, b, w.chains[b][i], s), ReplacedAt(w, b, i, s))
  {
    hide ListsOk, NoDup, Owned;
    ChainLinked(l, w, b);
    ListsShape(l, w);
  }

  /** The list with the new segment in it. */
  lemma ReplacedIn(l: Links, w: Spelling, b: nat, i: nat, s: nat)
    requires ListsOk(l, w) && b < |w.chains| && i < |w.chains[b]| - 1 && s < |w.owner| && w.owner[s] == HELD
    requires Follows(l, w.chains[b][i]) && l.next[w.chains[b][i]] != -1
    requires l.prev[w.chains[b][i]] == Before(w.chains[b], i) && l.next[w.chains[b][i]] == After(w.chains[b], i)
    requires Shape(Replaced(l, b, w.chains[b][i], s), ReplacedAt(w, b, i, s))
    ensures ChainOk(Replaced(l, b, w.chains[b][i], s), ReplacedAt(w, b, i, s), b)
  {
    hide ListsOk, NoDup, Owned, Linked;
    ChainLinked(l, w, b);
    ListsShape(l, w);
    var q := w.chains[b];
    ReplacedOwned(w.owner, q, b, i, s);
    LinkedReplace(l.prev, l.next, q, i, s);
  }

  lemma ReplacedOwned(owner: seq<int>, q: seq<int>, b: nat, i: nat, s: nat)
    requires Owned(owner, q, b) && NoDup(q) && i < |q| && s < |owner| && owner[s] != b
    ensures s !in q && Owned(owner[s := b][q[i] := HELD], q[i := s], b) && NoDup(q[i := s])
  {
  }

  lemma ListsShape(l: Links, w: Spelling)
    requires ListsOk(l, w)
    ensures Shape(l, w) && -1 <= l.freeHead < |l.next|
  {
  }

  lemma ReplacedElsewhere(l: Links, w: Spelling, b: nat, i: nat, s: nat)
    requires ListsOk(l, w) && b < |w.chains| && i < |w.chains[b]| - 1 && s < |w.owner| && w.owner[s] == HELD
    requires Follows(l, w.chains[b][i]) && l.next[w.chains[b][i]] != -1
    requires Shape(Replaced(l, b, w.chains[b][i], s), ReplacedAt(w, b, i, s))
    ensures FreeOk(Replaced(l, b, w.chains[b][i], s), ReplacedAt(w, b, i, s))
    ensures forall c :: 0 <= c < |w.chains| && c != b ==>
              ChainOk(Replaced(l, b, w.chains[b][i], s), ReplacedAt(w, b, i, s), c)
  {
    assert ChainOk(l, w, b);
    var q := w.chains[b];
    assert l.prev[q[i]] == Before(q, i) && l.next[q[i]] == After(q, i);
    var l', w' := Replaced(l, b, q[i], s), ReplacedAt(w, b, i, s);
    forall c | 0 <= c < |w.chains| && c != b ensures ChainOk(l', w', c) {
      assert ChainOk(l, w, c);
      ChainFrame(l, w, l', w', c);
    }
    FreeFrame(l, w, l', w');
  }

  lemma ReplacedOk(l: Links, w: Spelling, b: nat, i: nat, s: nat)
    requires ListsOk(l, w) && b < |w.chains| && i < |w.chains[b]| - 1 && s < |w.owner| && w.owner[s] == HELD
    ensures Follows(l, w.chains[b][i]) && l.next[w.chains[b][i]] != -1
    ensures ListsOk(Replaced(l, b, w.chains[b][i], s), ReplacedAt(w, b, i, s))
  {
    hide ChainOk, FreeOk;
    ReplacedAround(l, w, b, i, s);
    ReplacedIn(l, w, b, i, s);
    ReplacedElsewhere(l, w, b, i, s);
    var q, w' := w.chains[b], ReplacedAt(w, b, i, s);
    forall t | 0 <= t < |w.owner| ensures Placed(w', t) {
      assert Placed(w, t);
      if w.owner[t] == b || t == s {
        UpdatedHas(q, i, s, t);
      }
    }
  }

  lemma ChainLinked(l: Links, w: Spelling, b: nat)
    requires ListsOk(l, w) && b < |w.chains|
    ensures Linked(l.prev, l.next, w.chains[b]) && NoDup(w.chains[b]) && Owned(w.owner, w.chains[b], b)
    ensures InRange(w.chains[b], |l.next|)
    ensures l.first[b] == Head(w.chains[b]) && l.last[b] == Tail(w.chains[b]) && l.nSeg[b] == |w.chains[b]|
  {
    assert ChainOk(l, w, b);
  }

  /** No segment is in two lists, or twice in one. */
  lemma InOneListOnly(l: Links, w: Spelling, b: nat, i: nat, c: nat, j: nat)
    requires ListsOk(l, w) && b < |w.chains| && i < |w.chains[b]| && c < |w.chains| && j < |w.chains[c]|
    ensures w.chains[b][i] == w.chains[c][j] ==> b == c && i == j
    ensures w.chains[b][i] !in w.free
  {
    assert ChainOk(l, w, b) && ChainOk(l, w, c);
  }

  /** Every segment that is not held is in a list: one of the buckets' or the free pool's. */
  lemma InSomeList(l: Links, w: Spelling, s: nat) returns (q: seq<int>, p: nat)
    requires ListsOk(l, w) && s < |w.owner| && w.owner[s] != HELD
    ensures Linked(l.prev, l.next, q) && p < |q| && q[p] == s && |l.next| == |w.owner|
    ensures if w.owner[s] >= 0 then w.owner[s] < |w.chains| && q == w.chains[w.owner[s]] else q == w.free
    ensures NoDup(q)
    ensures Owned(w.owner, q, w.owner[s])
  {
    assert Placed(w, s);
    q := if w.owner[s] == FREE then w.free else w.chains[w.owner[s]];
    p :| 0 <= p < |q| && q[p] == s;
    if w.owner[s] >= 0 {
      assert ChainOk(l, w, w.owner[s]);
    }
  }
}
