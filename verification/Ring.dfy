/**
 * The ring array between one producer and one consumer: cap + 1 slots, of which one stays
 * vacant to tell full from empty.
 */
module Ring {
  /** How many slots are occupied. */
  function NElem(rpos: nat, wpos: nat, cap: nat): (n: int)
    requires rpos <= cap && wpos <= cap
    ensures 0 <= n <= cap
  {
    if rpos <= wpos then wpos - rpos else wpos + (cap - rpos + 1)
  }

  // ---------------------------------------------------------------------------
  // Positions that wrap around
  // ---------------------------------------------------------------------------

  /** The slot that the i-th element goes to, in a ring of n slots. */
  ghost function Pos(i: nat, n: nat): (p: nat)
    requires n > 0
    ensures p < n
  {
    if i == 0 then 0
    else
      var p := Pos(i - 1, n) + 1;
      if p == n then 0 else p
  }

  lemma StepPos(i: nat, n: nat)
    requires n > 0
    ensures (Pos(i, n) + 1) % n == Pos(i + 1, n)
  {
    var p := Pos(i, n) + 1;
    if p == n {
      assert n % n == 0;
    } else {
      assert p % n == p;
    }
  }

  /** Less than a whole turn apart, positions differ as their numbers do, or by a turn less. */
  lemma {:induction false} PosApart(i: nat, j: nat, n: nat)
    requires n > 0 && i <= j < i + n
    ensures var p := Pos(i, n) + (j - i);
            Pos(j, n) == if p < n then p else p - n
    decreases j - i
  {
    if i < j {
      PosApart(i, j - 1, n);
    }
  }

  /** The occupied slots, counted from the positions, are those between the two counters. */
  lemma NElemIs(r: nat, w: nat, cap: nat)
    requires r <= w <= r + cap
    ensures NElem(Pos(r, cap + 1), Pos(w, cap + 1), cap) == w - r
  {
    PosApart(r, w, cap + 1);
  }

  // ---------------------------------------------------------------------------
  // Producer and consumer, step by step
  // ---------------------------------------------------------------------------

  /** Where the producer is: it checks for room, writes the element, and then moves wpos. */
  datatype Producer<T> = Idle | Cleared(x: T) | Written(x: T)

  /** Where the consumer is: it checks for an element, reads it, and then moves rpos; or it flushes. */
  datatype Consumer<T> = Resting | Sure | Copied(x: T) | Flushing(w: nat, upTo: nat)

  /** `pushed` is all that was ever pushed, and `gone` how many of those have left the ring. */
  datatype State<T> = State(cap: nat, data: seq<T>, rpos: nat, wpos: nat, prod: Producer<T>, cons: Consumer<T>,
                            pushed: seq<T>, gone: nat)
  {
    ghost predicate Inv() {
      && |data| == cap + 1 && gone <= |pushed| <= gone + cap
      && rpos == Pos(gone, cap + 1) && wpos == Pos(|pushed|, cap + 1)
      && (forall i :: gone <= i < |pushed| ==> data[Pos(i, cap + 1)] == pushed[i])
      && (!prod.Idle? ==> |pushed| - gone < cap)
      && (prod.Written? ==> data[wpos] == prod.x)
      && (cons.Sure? || cons.Copied? ==> gone < |pushed|)
      && (cons.Copied? ==> cons.x == pushed[gone])
      && (cons.Flushing? ==> gone <= cons.upTo <= |pushed| && cons.w == Pos(cons.upTo, cap + 1))
    }

    /** What is in the ring. */
    ghost function Contents(): seq<T>
      requires gone <= |pushed|
    {
      pushed[gone..]
    }
  }

  ghost predicate Init<T>(s: State<T>) {
    |s.data| == s.cap + 1 && s.rpos == s.wpos == 0 && s.prod.Idle? && s.cons.Resting? && s.pushed == [] && s.gone == 0
  }

  ghost predicate CheckFull<T(!new)>(s: State<T>, s': State<T>, x: T) {
    && s.prod.Idle? && s.rpos <= s.cap && s.wpos <= s.cap
    && s' == if NElem(s.rpos, s.wpos, s.cap) == s.cap then s else s.(prod := Cleared(x))
  }

  ghost predicate WriteSlot<T(!new)>(s: State<T>, s': State<T>) {
    && s.prod.Cleared? && s.wpos < |s.data|
    && s' == s.(data := s.data[s.wpos := s.prod.x], prod := Written(s.prod.x))
  }

  ghost predicate PublishWrite<T(!new)>(s: State<T>, s': State<T>) {
    s.prod.Written? &&
    s' == s.(wpos := (s.wpos + 1) % (s.cap + 1), prod := Idle, pushed := s.pushed + [s.prod.x])
  }

  ghost predicate CheckEmpty<T(!new)>(s: State<T>, s': State<T>) {
    && s.cons.Resting? && s.rpos <= s.cap && s.wpos <= s.cap
    && s' == if NElem(s.rpos, s.wpos, s.cap) == 0 then s else s.(cons := Sure)
  }

  ghost predicate ReadSlot<T(!new)>(s: State<T>, s': State<T>) {
    s.cons.Sure? && s.rpos < |s.data| && s' == s.(cons := Copied(s.data[s.rpos]))
  }

  ghost predicate PublishRead<T(!new)>(s: State<T>, s': State<T>) {
    s.cons.Copied? && s' == s.(rpos := (s.rpos + 1) % (s.cap + 1), cons := Resting, gone := s.gone + 1)
  }

  ghost predicate BeginFlush<T(!new)>(s: State<T>, s': State<T>) {
    s.cons.Resting? && s' == s.(cons := Flushing(s.wpos, |s.pushed|))
  }

  ghost predicate EndFlush<T(!new)>(s: State<T>, s': State<T>) {
    s.cons.Flushing? && s' == s.(rpos := s.cons.w, cons := Resting, gone := s.cons.upTo)
  }

  ghost predicate Next<T(!new)>(s: State<T>, s': State<T>) {
    || (exists x :: CheckFull(s, s', x))
    || WriteSlot(s, s') || PublishWrite(s, s')
    || CheckEmpty(s, s') || ReadSlot(s, s') || PublishRead(s, s')
    || BeginFlush(s, s') || EndFlush(s, s')
  }

  lemma CheckFullKeeps<T(!new)>(s: State<T>, s': State<T>, x: T)
    requires s.Inv() && CheckFull(s, s', x)
    ensures s'.Inv()
  {
    NElemIs(s.gone, |s.pushed|, s.cap);
  }

  /** The slot written is not an occupied one. */
  lemma WriteKeeps<T(!new)>(s: State<T>, s': State<T>)
    requires s.Inv() && WriteSlot(s, s')
    ensures s'.Inv()
  {
    forall i | s.gone <= i < |s.pushed| ensures s'.data[Pos(i, s.cap + 1)] == s.pushed[i] {
      PosApart(i, |s.pushed|, s.cap + 1);
    }
  }

  lemma PublishWriteKeeps<T(!new)>(s: State<T>, s': State<T>)
    requires s.Inv() && PublishWrite(s, s')
    ensures s'.Inv() && s'.Contents() == s.Contents() + [s.prod.x]
  {
    StepPos(|s.pushed|, s.cap + 1);
  }

  lemma ReadKeeps<T(!new)>(s: State<T>, s': State<T>)
    requires s.Inv() && (CheckEmpty(s, s') || ReadSlot(s, s'))
    ensures s'.Inv()
  {
    NElemIs(s.gone, |s.pushed|, s.cap);
    if s.cons.Sure? {
      assert s.data[Pos(s.gone, s.cap + 1)] == s.pushed[s.gone];
    }
  }

  lemma PublishReadKeeps<T(!new)>(s: State<T>, s': State<T>)
    requires s.Inv() && PublishRead(s, s')
    ensures s'.Inv() && s.Contents() == [s.cons.x] + s'.Contents()
  {
    StepPos(s.gone, s.cap + 1);
  }

  lemma FlushKeeps<T(!new)>(s: State<T>, s': State<T>)
    requires s.Inv() && (BeginFlush(s, s') || EndFlush(s, s'))
    ensures s'.Inv()
  {
  }

  lemma NextKeeps<T(!new)>(s: State<T>, s': State<T>)
    requires s.Inv() && Next(s, s')
    ensures s'.Inv() && s.gone <= s'.gone && s.pushed <= s'.pushed && s'.cap == s.cap
  {
    if x :| CheckFull(s, s', x) {
      CheckFullKeeps(s, s', x);
    } else if WriteSlot(s, s') {
      WriteKeeps(s, s');
    } else if PublishWrite(s, s') {
      PublishWriteKeeps(s, s');
    } else if CheckEmpty(s, s') || ReadSlot(s, s') {
      ReadKeeps(s, s');
    } else if PublishRead(s, s') {
      PublishReadKeeps(s, s');
    } else {
      FlushKeeps(s, s');
    }
  }

  // ---------------------------------------------------------------------------
  // Runs
  // ---------------------------------------------------------------------------

  /** A run: every state but the first comes from the one before by a step of either thread. */
  ghost predicate IsRun<T(!new)>(run: seq<State<T>>) {
    |run| > 0 && Init(run[0]) && forall i :: 0 <= i < |run| - 1 ==> Next(run[i], run[i + 1])
  }

  lemma {:induction false} RunKeeps<T(!new)>(run: seq<State<T>>, i: nat, j: nat)
    requires IsRun(run) && i <= j < |run|
    ensures run[i].Inv() && run[j].Inv() && run[i].gone <= run[j].gone && run[i].pushed <= run[j].pushed
    decreases j
  {
    if j == 0 {
      assert Pos(0, run[0].cap + 1) == 0;
    } else if i == j {
      RunKeeps(run, j - 1, j - 1);
      assert Next(run[j - 1], run[j]);
      NextKeeps(run[j - 1], run[j]);
    } else {
      RunKeeps(run, i, j - 1);
      assert Next(run[j - 1], run[j]);
      NextKeeps(run[j - 1], run[j]);
    }
  }

  /** In no state of a run is the slot about to be written the one about to be read, nor one in use. */
  lemma NoRace<T(!new)>(run: seq<State<T>>, j: nat)
    requires IsRun(run) && j < |run|
    ensures var s := run[j];
            && s.rpos <= s.cap && s.wpos <= s.cap && NElem(s.rpos, s.wpos, s.cap) == |s.pushed| - s.gone <= s.cap
            && (!s.prod.Idle? && (s.cons.Sure? || s.cons.Copied?) ==> s.wpos != s.rpos)
  {
    RunKeeps(run, j, j);
    var s := run[j];
    NElemIs(s.gone, |s.pushed|, s.cap);
  }

  /**
   * What the consumer takes out, in the order it does: whatever comes out as the k-th element is
   * what was pushed as the k-th, also counting those a flush discarded.
   */
  lemma Fifo<T(!new)>(run: seq<State<T>>, i: nat, j: nat)
    requires IsRun(run) && i <= j < |run| && run[i].cons.Copied?
    ensures run[i].gone < |run[j].pushed| && run[i].cons.x == run[j].pushed[run[i].gone]
  {
    RunKeeps(run, i, j);
  }

  /** The values the consumer got up to state n, one for each time it moved rpos after reading. */
  ghost function Popped<T(!new)>(run: seq<State<T>>, n: nat): seq<T>
    requires n < |run|
  {
    if n == 0 then []
    else Popped(run, n - 1) + if run[n - 1].cons.Copied? && run[n].cons.Resting? then [run[n - 1].cons.x] else []
  }

  /** Without a flush, what was popped is a beginning of what was pushed, and the ring holds the rest. */
  lemma {:induction false} PoppedPrefix<T(!new)>(run: seq<State<T>>, n: nat)
    requires IsRun(run) && n < |run| && forall i :: 0 <= i < |run| ==> !run[i].cons.Flushing?
    ensures var s := run[n];
            s.gone <= |s.pushed| && Popped(run, n) == s.pushed[..s.gone] && s.pushed == Popped(run, n) + s.Contents()
  {
    hide Next, State.Inv;
    if n > 0 {
      PoppedPrefix(run, n - 1);
      assert Next(run[n - 1], run[n]);
      RunKeeps(run, n - 1, n);
      StepPops(run[n - 1], run[n]);
    }
  }

  lemma StepPops<T(!new)>(s: State<T>, s': State<T>)
    requires s.Inv() && s'.Inv() && Next(s, s') && !s.cons.Flushing?
    ensures s'.gone <= |s'.pushed|
    ensures s'.pushed[..s'.gone] == s.pushed[..s.gone] + if s.cons.Copied? && s'.cons.Resting? then [s.cons.x] else []
  {
    if PublishRead(s, s') {
      assert s'.pushed[..s'.gone] == s.pushed[..s.gone] + [s.cons.x];
    } else {
      assert s'.gone == s.gone && s.pushed <= s'.pushed;
    }
  }

  // ---------------------------------------------------------------------------
  // The ring as one thread sees it
  // ---------------------------------------------------------------------------

  class RingArray<T(0)> {
    const cap: nat
    const data: array<T>
    var rpos: nat
    var wpos: nat
    /** All that was ever pushed, and how many of those have left the ring. */
    ghost var pushed: seq<T>
    ghost var gone: nat

    ghost predicate Valid()
      reads this, data
    {
      && data.Length == cap + 1 && gone <= |pushed| <= gone + cap
      && rpos == Pos(gone, cap + 1) && wpos == Pos(|pushed|, cap + 1)
      && forall i :: gone <= i < |pushed| ==> data[Pos(i, cap + 1)] == pushed[i]
    }

    ghost function Contents(): seq<T>
      requires gone <= |pushed|
      reads this
    {
      pushed[gone..]
    }

    constructor (cap: nat)
      ensures Valid() && Contents() == [] && this.cap == cap && fresh(data)
    {
      this.cap := cap;
      data := new T[cap + 1];
      rpos, wpos, pushed, gone := 0, 0, [], 0;
    }

    method Full() returns (full: bool)
      requires Valid()
      ensures full <==> |Contents()| == cap
    {
      NElemIs(gone, |pushed|, cap);
      full := NElem(rpos, wpos, cap) == cap;
    }

    method Empty() returns (empty: bool)
      requires Valid()
      ensures empty <==> Contents() == []
    {
      NElemIs(gone, |pushed|, cap);
      empty := NElem(rpos, wpos, cap) == 0;
    }

    /** Write to the slot at wpos, which is not an occupied one. */
    method WriteSlotAt(x: T)
      requires Valid() && |pushed| < gone + cap
      modifies data
      ensures Valid() && data[wpos] == x
    {
      hide Pos;
      ghost var n := cap + 1;
      forall i | gone <= i < |pushed| ensures Pos(i, n) != wpos {
        PosApart(i, |pushed|, n);
      }
      data[wpos] := x;
    }

    /** Append an element, unless the ring is full. */
    method Push(x: T) returns (ok: bool)
      requires Valid()
      modifies this, data
      ensures Valid() && (ok <==> old(|Contents()|) < cap)
      ensures Contents() == if ok then old(Contents()) + [x] else old(Contents())
    {
      hide Pos;
      var full := Full();
      if full {
        return false;
      }
      WriteSlotAt(x);
      StepPos(|pushed|, cap + 1);
      wpos := (wpos + 1) % (cap + 1);
      pushed := pushed + [x];
      ok := true;
    }

    /** Take off the oldest element, unless the ring is empty. */
    method Pop(x0: T) returns (ok: bool, x: T)
      requires Valid()
      modifies this
      ensures Valid() && (ok <==> old(Contents()) != [])
      ensures if ok then old(Contents()) == [x] + Contents() else Contents() == old(Contents()) && x == x0
    {
      hide Pos;
      x := x0;
      var empty := Empty();
      if empty {
        return false, x;
      }
      x := data[rpos];
      assert x == pushed[gone];
      StepPos(gone, cap + 1);
      rpos := (rpos + 1) % (cap + 1);
      gone := gone + 1;
      ok := true;
    }

    /** Drop everything. */
    method Flush()
      requires Valid()
      modifies this
      ensures Valid() && Contents() == []
    {
      rpos := wpos;
      gone := |pushed|;
    }
  }
}
