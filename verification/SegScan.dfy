/**
 * Where a new segment comes from when none is free: the search for segments to merge, as
 * functions of the lists and headers. The loops of the store are proved against them.
 */
module SegScan {
  import opened SegLists
  import opened TtlBuckets

  // ---------------------------------------------------------------------------
  // In one list
  // ---------------------------------------------------------------------------

  predicate ThreeAt(q: seq<int>, ok: seq<bool>, m: nat) {
    m + 2 < |q| && 0 <= q[m] < |ok| && 0 <= q[m + 1] < |ok| && 0 <= q[m + 2] < |ok| &&
    ok[q[m]] && ok[q[m + 1]] && ok[q[m + 2]]
  }

  /** The first position from p on where three evictable segments follow each other, or the length. */
  ghost function FirstThree(q: seq<int>, ok: seq<bool>, p: nat): (m: nat)
    requires p <= |q|
    ensures p <= m <= |q|
    ensures m < |q| ==> ThreeAt(q, ok, m)
    ensures forall i :: p <= i < m ==> !ThreeAt(q, ok, i)
    decreases |q| - p
  {
    if p == |q| || ThreeAt(q, ok, p) then p else FirstThree(q, ok, p + 1)
  }

  lemma FirstThreeIs(q: seq<int>, ok: seq<bool>, p: nat, m: nat)
    requires p <= m <= |q| && (m < |q| ==> ThreeAt(q, ok, m))
    requires forall i :: p <= i < m ==> !ThreeAt(q, ok, i)
    ensures FirstThree(q, ok, p) == m
  {
  }

  /** How many segments from position p on may be evicted, up to the first that may not, and up to max. */
  ghost function RunLength(q: seq<int>, ok: seq<bool>, p: nat, max: nat): (n: nat)
    requires p <= |q|
    ensures n <= max && p + n <= |q|
    ensures forall i :: p <= i < p + n ==> 0 <= q[i] < |ok| && ok[q[i]]
    ensures n == max || p + n == |q| || !(0 <= q[p + n] < |ok| && ok[q[p + n]])
    decreases max
  {
    if max == 0 || p == |q| || !(0 <= q[p] < |ok| && ok[q[p]]) then 0 else 1 + RunLength(q, ok, p + 1, max - 1)
  }

  lemma RunLengthIs(q: seq<int>, ok: seq<bool>, p: nat, max: nat, n: nat)
    requires p + n <= |q| && n <= max
    requires forall i :: p <= i < p + n ==> 0 <= q[i] < |ok| && ok[q[i]]
    requires n == max || p + n == |q| || !(0 <= q[p + n] < |ok| && ok[q[p + n]])
    ensures RunLength(q, ok, p, max) == n
  {
  }

  /** Where three in a row were found, a run is at least three long, unless fewer are allowed. */
  lemma RunOfThree(q: seq<int>, ok: seq<bool>, p: nat, max: nat)
    requires p <= |q| && ThreeAt(q, ok, p)
    ensures RunLength(q, ok, p, max) >= if max < 3 then max else 3
  {
    var n := RunLength(q, ok, p, max);
    assert n == 1 ==> q[p + n] == q[p + 1];
    assert n == 2 ==> q[p + n] == q[p + 2];
  }

  ghost function IndexOf(q: seq<int>, s: int): (i: nat)
    ensures i <= |q| && (s in q ==> i < |q| && q[i] == s)
  {
    if q == [] || q[0] == s then 0 else 1 + IndexOf(q[1..], s)
  }

  lemma IndexIs(q: seq<int>, i: nat)
    requires i < |q| && NoDup(q)
    ensures IndexOf(q, q[i]) == i
  {
    assert q[i] in q;
  }

  // ---------------------------------------------------------------------------
  // Over all lists
  // ---------------------------------------------------------------------------

  /** What the search looks at: lists and headers, and the time. */
  datatype Site = Site(links: Links, lists: Spelling, wref: seq<int>, evictable: seq<bool>,
                       createAt: seq<int>, ttl: seq<int>, now: int)
  {
    predicate Fits(n: nat) {
      && |wref| == |evictable| == |createAt| == |ttl| == n
      && |links.prev| == |links.next| == |lists.owner| == n
      && |links.first| == |links.last| == |links.nSeg| == |lists.chains| == N_BUCKET
      && forall b :: 0 <= b < N_BUCKET ==> -1 <= links.first[b] < n
    }

    /** No writer, not the tail of its list, not about to expire. */
    predicate Movable(s: nat)
      requires Fits(|wref|) && s < |wref|
    {
      wref[s] == 0 && evictable[s] && links.next[s] != -1 && createAt[s] + ttl[s] - now > 20
    }

    /** The segments that are movable and at least as old as `mature`. */
    function Evictables(mature: int): (ok: seq<bool>)
      requires Fits(|wref|)
      ensures |ok| == |wref| && forall s :: 0 <= s < |ok| ==> ok[s] == (Movable(s) && now - createAt[s] >= mature)
    {
      seq(|wref|, s requires 0 <= s < |wref| && Fits(|wref|) => Movable(s) && now - createAt[s] >= mature)
    }

    /** The list a segment is in. */
    ghost function ListOf(s: nat): seq<int>
      requires Fits(|wref|) && s < |wref|
    {
      if 0 <= lists.owner[s] < N_BUCKET then lists.chains[lists.owner[s]] else lists.free
    }

    /** The first segment, from s on in its list, of three in a row that may be evicted; -1 if there is none. */
    ghost function RunFrom(s: nat, mature: int): int
      requires Fits(|wref|) && s < |wref|
    {
      var q := ListOf(s);
      At(q, FirstThree(q, Evictables(mature), IndexOf(q, s)))
    }
  }

  lemma RunFromIs(st: Site, s: nat, mature: int, q: seq<int>, p: nat)
    requires st.Fits(|st.wref|) && s < |st.wref| && q == st.ListOf(s) && NoDup(q) && p < |q| && q[p] == s
    ensures st.RunFrom(s, mature) == At(q, FirstThree(q, st.Evictables(mature), p))
  {
    IndexIs(q, p);
  }

  function At(q: seq<int>, i: nat): int { if i < |q| then q[i] else -1 }

  /** What a search ends with: the first of three in a row, the too old head of a list, or nothing. */
  datatype Target = Run(seg: int) | Old(seg: int) | Nothing

  /** What bucket b has to offer, when the search in it begins with segment `from`. */
  ghost function Offer(st: Site, b: nat, from: int, mature: int, tooOld: nat -> bool): Target
    requires st.Fits(|st.wref|) && b < N_BUCKET
  {
    var first := st.links.first[b];
    if first == -1 || !(0 <= from < |st.wref|) then Nothing
    else if st.RunFrom(from, mature) != -1 then Run(st.RunFrom(from, mature))
    else if tooOld(first) then Old(first)
    else Nothing
  }

  lemma EmptyOffers(st: Site, b: nat, from: int, mature: int, tooOld: nat -> bool)
    requires st.Fits(|st.wref|) && b < N_BUCKET
    ensures st.links.first[b] == -1 ==> Offer(st, b, from, mature, tooOld) == Nothing
  {
  }

  /** Where the search begins in bucket b: where the last merge there ended, if that is known. */
  function Start(st: Site, next: seq<int>, b: nat): int
    requires st.Fits(|st.wref|) && b < N_BUCKET == |next|
  {
    if next[b] != -1 then next[b] else st.links.first[b]
  }

  function Turn(b0: nat, i: nat): (b: nat)
    ensures b < N_BUCKET
  {
    (b0 + i) % N_BUCKET
  }

  /** Before a bucket comes up again, every other one does. */
  lemma TurnsApart(b0: nat, i: nat, k: nat)
    requires i < k < N_BUCKET
    ensures Turn(b0, i) != Turn(b0, k)
  {
  }

  /** Every bucket comes up. */
  lemma TurnOf(b0: nat, b: nat) returns (i: nat)
    requires b < N_BUCKET
    ensures i < N_BUCKET && Turn(b0, i) == b
  {
    i := (b + N_BUCKET - b0 % N_BUCKET) % N_BUCKET;
  }

  lemma TurnAgain(b0: nat)
    ensures Turn(b0, N_BUCKET) == Turn(b0, 0)
  {
  }

  /**
   * The search from the i-th turn on. In the end the first bucket comes up once more, and is then
   * searched from its first segment.
   */
  ghost function Scan(st: Site, next: seq<int>, b0: nat, i: nat, mature: int, tooOld: nat -> bool): Target
    requires st.Fits(|st.wref|) && |next| == N_BUCKET
    decreases N_BUCKET - i
  {
    var b := Turn(b0, i);
    if i >= N_BUCKET then Offer(st, b, st.links.first[b], mature, tooOld)
    else
      var o := Offer(st, b, Start(st, next, b), mature, tooOld);
      if o != Nothing then o else Scan(st, next, b0, i + 1, mature, tooOld)
  }

  /** A search in vain has looked into every bucket, from where it begins there, and found no run. */
  lemma {:induction false} ScanNothing(st: Site, next: seq<int>, b0: nat, i: nat, mature: int, tooOld: nat -> bool)
    requires st.Fits(|st.wref|) && |next| == N_BUCKET && i <= N_BUCKET
    ensures Scan(st, next, b0, i, mature, tooOld) == Nothing <==>
              && Offer(st, Turn(b0, 0), st.links.first[Turn(b0, 0)], mature, tooOld) == Nothing
              && forall k :: i <= k < N_BUCKET ==>
                   Offer(st, Turn(b0, k), Start(st, next, Turn(b0, k)), mature, tooOld) == Nothing
    decreases N_BUCKET - i
  {
    hide Offer, Turn, Start;
    TurnAgain(b0);
    if i < N_BUCKET {
      ScanNothing(st, next, b0, i + 1, mature, tooOld);
    }
  }

  /** After a search in vain, no bucket has a run from where it was searched, nor a head that is too old. */
  lemma InVain(st: Site, next: seq<int>, b0: nat, mature: int, tooOld: nat -> bool, b: nat)
    requires st.Fits(|st.wref|) && |next| == N_BUCKET && b < N_BUCKET && -1 <= next[b] < |st.wref|
    requires Scan(st, next, b0, 0, mature, tooOld) == Nothing && st.links.first[b] != -1
    ensures st.RunFrom(Start(st, next, b), mature) == -1 && !tooOld(st.links.first[b])
  {
    ScanNothing(st, next, b0, 0, mature, tooOld);
    var i := TurnOf(b0, b);
  }

  /** After a search in vain, every bucket is searched from its first segment. */
  function Restarted(st: Site, next: seq<int>): (next': seq<int>)
    requires st.Fits(|st.wref|) && |next| == N_BUCKET
    ensures |next'| == N_BUCKET
  {
    seq(N_BUCKET, b requires 0 <= b < N_BUCKET == |next| == |st.links.first| =>
          if st.links.first[b] != -1 then -1 else next[b])
  }

  /** Where a search begins in each bucket, after i turns in vain. */
  ghost predicate Begun(st: Site, next0: seq<int>, next: seq<int>, b0: nat, i: nat)
    requires st.Fits(|st.wref|) && |next0| == N_BUCKET
  {
    && |next| == N_BUCKET
    && forall k :: 0 <= k < N_BUCKET ==>
         next[Turn(b0, k)] == if k < i && st.links.first[Turn(b0, k)] != -1 then -1 else next0[Turn(b0, k)]
  }

  lemma BegunAtFirst(st: Site, next: seq<int>, b0: nat)
    requires st.Fits(|st.wref|) && |next| == N_BUCKET
    ensures Begun(st, next, next, b0, 0)
  {
  }

  function From(st: Site, next: seq<int>, b0: nat, i: nat): int
    requires st.Fits(|st.wref|) && |next| == N_BUCKET
  {
    if i < N_BUCKET then Start(st, next, Turn(b0, i)) else st.links.first[Turn(b0, i)]
  }

  lemma BeginsAt(st: Site, next0: seq<int>, next: seq<int>, b0: nat, i: nat)
    requires st.Fits(|st.wref|) && |next0| == N_BUCKET && i <= N_BUCKET && Begun(st, next0, next, b0, i)
    ensures st.links.first[Turn(b0, i)] != -1 ==> Start(st, next, Turn(b0, i)) == From(st, next0, b0, i)
    ensures st.links.first[Turn(b0, i)] == -1 ==> Begun(st, next0, next, b0, i + 1)
    ensures st.links.first[Turn(b0, i)] != -1 ==> Begun(st, next0, next[Turn(b0, i) := -1], b0, i + 1)
  {
    TurnAgain(b0);
    forall k | 0 <= k < N_BUCKET && k != i ensures Turn(b0, k) != Turn(b0, i) || (i == N_BUCKET && k == 0) {
      if i == N_BUCKET {
        if k > 0 {
          TurnsApart(b0, 0, k);
        }
      } else if k < i {
        TurnsApart(b0, k, i);
      } else {
        TurnsApart(b0, i, k);
      }
    }
  }

  lemma ScanStep(st: Site, next: seq<int>, b0: nat, i: nat, mature: int, tooOld: nat -> bool)
    requires st.Fits(|st.wref|) && |next| == N_BUCKET && i <= N_BUCKET
    ensures var o := Offer(st, Turn(b0, i), From(st, next, b0, i), mature, tooOld);
            Scan(st, next, b0, i, mature, tooOld)
            == if o != Nothing || i == N_BUCKET then o else Scan(st, next, b0, i + 1, mature, tooOld)
  {
  }

  lemma RestartedIs(st: Site, next0: seq<int>, next: seq<int>, b0: nat)
    requires st.Fits(|st.wref|) && |next0| == N_BUCKET && Begun(st, next0, next, b0, N_BUCKET + 1)
    ensures next == Restarted(st, next0)
  {
    forall b | 0 <= b < N_BUCKET ensures next[b] == Restarted(st, next0)[b] {
      var i := TurnOf(b0, b);
    }
  }

  /** The segments that are too old for a search that requires an age: how old that is depends on the age. */
  function AtAge(tooOld: (nat, nat) -> bool, mature: nat): nat -> bool { (s: nat) => tooOld(mature, s) }

  /** Searches, each in vain but the last, with the required age halved from one to the next. */
  ghost function Tries(st: Site, next: seq<int>, b0: nat, mature: nat, tooOld: (nat, nat) -> bool, left: nat): Target
    requires st.Fits(|st.wref|) && |next| == N_BUCKET
    decreases left
  {
    var o := Scan(st, next, b0, 0, mature, AtAge(tooOld, mature));
    if o != Nothing || left == 0 then o else Tries(st, Restarted(st, next), b0, mature / 2, tooOld, left - 1)
  }

  lemma TriesStep(st: Site, next: seq<int>, b0: nat, mature: nat, tooOld: (nat, nat) -> bool, left: nat)
    requires st.Fits(|st.wref|) && |next| == N_BUCKET
    ensures var o := Scan(st, next, b0, 0, mature, AtAge(tooOld, mature));
            Tries(st, next, b0, mature, tooOld, left)
            == if o != Nothing || left == 0 then o else Tries(st, Restarted(st, next), b0, mature / 2, tooOld, left - 1)
  {
  }

  /** Where a new segment comes from, or why there is none. */
  datatype Supply = FromPool | FromMerge(seg: int) | FromList(seg: int) | Nowhere | Drained

  /** How often the search is repeated. */
  const RETRIES: nat := 8

  ghost function Supplied(st: Site, reserved: nat, next: seq<int>, b0: nat, mature: nat,
                          tooOld: (nat, nat) -> bool): Supply
    requires st.Fits(|st.wref|) && |next| == N_BUCKET
  {
    if st.links.nFree != 0 && st.links.nFree > reserved then FromPool
    else match Tries(st, next, b0, mature, tooOld, RETRIES)
      case Run(r) => if st.links.nFree == 0 then Drained else FromMerge(r)
      case Old(s) => FromList(s)
      case Nothing => Nowhere
  }

  // ---------------------------------------------------------------------------
  // When a search finds a run
  // ---------------------------------------------------------------------------

  /** What holds of lists and headers between operations. */
  ghost predicate Tidy(st: Site) {
    && st.Fits(|st.wref|) && ListsOk(st.links, st.lists)
    && (forall s :: 0 <= s < |st.wref| ==> st.lists.owner[s] != HELD)
    && (forall s :: 0 <= s < |st.wref| && st.evictable[s] ==> st.lists.owner[s] >= 0)
  }

  /** Somewhere in bucket b's list three segments follow each other that may be evicted at that age. */
  ghost predicate HasThree(st: Site, b: nat, mature: int)
    requires st.Fits(|st.wref|) && b < N_BUCKET
  {
    exists m: nat :: ThreeAt(st.lists.chains[b], st.Evictables(mature), m)
  }

  lemma YoungerToo(st: Site, b: nat, mature: int, mature': int)
    requires st.Fits(|st.wref|) && b < N_BUCKET && HasThree(st, b, mature) && mature' <= mature
    ensures HasThree(st, b, mature')
  {
    var m: nat :| ThreeAt(st.lists.chains[b], st.Evictables(mature), m);
    assert ThreeAt(st.lists.chains[b], st.Evictables(mature'), m);
  }

  /** From its first segment on, a list is searched whole. */
  lemma FirstHas(st: Site, b: nat, mature: int)
    requires Tidy(st) && b < N_BUCKET && st.links.first[b] != -1
    ensures st.RunFrom(st.links.first[b], mature) != -1 <==> HasThree(st, b, mature)
  {
    hide Linked;
    var q, ok := st.lists.chains[b], st.Evictables(mature);
    ChainLinked(st.links, st.lists, b);
    RunFromIs(st, q[0], mature, q, 0);
  }

  /** What a search finds, wherever it begins, is in some bucket's list. */
  lemma RunHas(st: Site, s: nat, mature: int) returns (b: nat)
    requires Tidy(st) && s < |st.wref| && st.RunFrom(s, mature) != -1
    ensures b < N_BUCKET && HasThree(st, b, mature)
  {
    hide Linked;
    var q, p := InSomeList(st.links, st.lists, s);
    RunFromIs(st, s, mature, q, p);
    var m := FirstThree(q, st.Evictables(mature), p);
    assert st.evictable[q[m]];
    b := st.lists.owner[q[m]];
    assert ThreeAt(st.lists.chains[b], st.Evictables(mature), m);
  }

  /** A search that finds a run finds it in some bucket's list. */
  lemma {:induction false} ScanHas(st: Site, next: seq<int>, b0: nat, i: nat, mature: int, tooOld: nat -> bool)
    returns (b: nat)
    requires Tidy(st) && |next| == N_BUCKET && i <= N_BUCKET && Scan(st, next, b0, i, mature, tooOld).Run?
    ensures b < N_BUCKET && HasThree(st, b, mature)
    decreases N_BUCKET - i
  {
    hide ListsOk, Site.RunFrom, HasThree;
    var from := From(st, next, b0, i);
    ScanStep(st, next, b0, i, mature, tooOld);
    if Offer(st, Turn(b0, i), from, mature, tooOld).Run? {
      b := RunHas(st, from, mature);
    } else {
      b := ScanHas(st, next, b0, i + 1, mature, tooOld);
    }
  }

  /** Without heads that are too old, a search finds a run or nothing. */
  lemma {:induction false} ScanRuns(st: Site, next: seq<int>, b0: nat, i: nat, mature: int, tooOld: nat -> bool)
    requires st.Fits(|st.wref|) && |next| == N_BUCKET && i <= N_BUCKET && forall s :: !tooOld(s)
    ensures !Scan(st, next, b0, i, mature, tooOld).Old?
    decreases N_BUCKET - i
  {
    hide Site.RunFrom;
    ScanStep(st, next, b0, i, mature, tooOld);
    if i < N_BUCKET {
      ScanRuns(st, next, b0, i + 1, mature, tooOld);
    }
  }

  function Halved(mature: nat, k: nat): (r: nat)
    ensures r <= mature
  {
    if k == 0 then mature else Halved(mature / 2, k - 1)
  }

  /** Some bucket's list has three in a row at that age. */
  ghost predicate SomeThree(st: Site, mature: int)
    requires st.Fits(|st.wref|)
  {
    exists b: nat :: b < N_BUCKET && HasThree(st, b, mature)
  }

  /**
   * Without heads that are too old, the searches find a run just when some list has three segments
   * in a row without writers, not about to expire, and as old as the last search requires.
   */
  lemma {:induction false} TriesIff(st: Site, next: seq<int>, b0: nat, mature: nat, tooOld: (nat, nat) -> bool,
                                    left: nat)
    requires Tidy(st) && |next| == N_BUCKET && forall m, s :: !tooOld(m, s)
    requires left == 0 ==> forall b :: 0 <= b < N_BUCKET && st.links.first[b] != -1 ==> next[b] == -1
    ensures Tries(st, next, b0, mature, tooOld, left).Run? <==> SomeThree(st, Halved(mature, left))
    ensures !Tries(st, next, b0, mature, tooOld, left).Old?
    decreases left
  {
    hide Scan, ListsOk, HasThree, Offer, Restarted;
    var old' := AtAge(tooOld, mature);
    TriesStep(st, next, b0, mature, tooOld, left);
    ScanRuns(st, next, b0, 0, mature, old');
    var o := Scan(st, next, b0, 0, mature, old');
    if o.Run? {
      var b := ScanHas(st, next, b0, 0, mature, old');
      YoungerToo(st, b, mature, Halved(mature, left));
    } else if left == 0 {
      NoThree(st, next, b0, mature, old');
    } else {
      RestartsAll(st, next);
      TriesIff(st, Restarted(st, next), b0, mature / 2, tooOld, left - 1);
    }
  }

  lemma RestartsAll(st: Site, next: seq<int>)
    requires st.Fits(|st.wref|) && |next| == N_BUCKET
    ensures forall b :: 0 <= b < N_BUCKET && st.links.first[b] != -1 ==> Restarted(st, next)[b] == -1
  {
  }

  /** A search in vain that begins everywhere with the first segment leaves no three in a row. */
  lemma NoThree(st: Site, next: seq<int>, b0: nat, mature: int, tooOld: nat -> bool)
    requires Tidy(st) && |next| == N_BUCKET && Scan(st, next, b0, 0, mature, tooOld) == Nothing
    requires forall b :: 0 <= b < N_BUCKET && st.links.first[b] != -1 ==> next[b] == -1
    ensures !SomeThree(st, mature)
  {
    hide Scan, ListsOk, HasThree, Site.RunFrom;
    forall b: nat | b < N_BUCKET ensures !HasThree(st, b, mature) {
      if st.links.first[b] == -1 {
        EmptyHas(st, b, mature);
      } else {
        InVain(st, next, b0, mature, tooOld, b);
        FirstHas(st, b, mature);
      }
    }
  }

  lemma EmptyHas(st: Site, b: nat, mature: int)
    requires Tidy(st) && b < N_BUCKET && st.links.first[b] == -1
    ensures !HasThree(st, b, mature)
  {
    hide Linked;
    ChainLinked(st.links, st.lists, b);
  }

  /**
   * When a merge has no segment to copy to: none is free, and some list has three segments in a row
   * without writers, not about to expire, and as old as the last of the searches requires.
   */
  lemma DrainedIff(st: Site, reserved: nat, next: seq<int>, b0: nat, mature: nat, tooOld: (nat, nat) -> bool)
    requires Tidy(st) && |next| == N_BUCKET && forall m, s :: !tooOld(m, s)
    ensures Supplied(st, reserved, next, b0, mature, tooOld).Drained? <==>
              st.links.nFree == 0 && SomeThree(st, Halved(mature, RETRIES))
  {
    hide ListsOk, Tries;
    TriesIff(st, next, b0, mature, tooOld, RETRIES);
  }
}
