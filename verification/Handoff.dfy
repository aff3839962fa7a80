/**
 * Connections change hands between the server and the worker thread: each direction has a ring
 * for the connections and a pipe with one byte for each. Every step of either thread may come
 * between any two of the other's.
 */
module Handoff {
  import opened Basics
  import opened Ring

  type Conn = nat

  /** The rings' capacity, and the size of the buffer that pipe bytes are read into. */
  const CAP: nat := 1024

  /**
   * One direction. The producer has a connection in hand before it tries to push it, and owes the
   * pipe a byte after it did. The consumer reads bytes off the pipe and then pops a connection for
   * each; `left` is how many it still has to pop, counting the one it has got in hand.
   */
  datatype Half = Half(ring: State<Conn>, pipe: nat, owed: bool, left: nat, hand: Option<Conn>, got: Option<Conn>)
  {
    ghost predicate Inv() {
      && ring.Inv() && ring.cap == CAP && !ring.cons.Flushing?
      && pipe + left + One(owed) == |ring.Contents()| + One(got.Some?)
      && (ring.cons.Sure? || ring.cons.Copied? ==> left > 0 && got.None?)
      && (got.Some? ==> left > 0)
      && (owed ==> ring.prod.Idle?)
      && (hand.Some? ==> ring.prod.Idle? && !owed)
    }

    /** The connections that are on their way in this direction, or in a thread's hands. */
    ghost function Carries(): multiset<Conn>
      requires ring.Inv()
    {
      multiset(ring.Contents()) + Held(hand) + Held(got) +
      (if ring.prod.Idle? then multiset{} else multiset{ring.prod.x})
    }
  }

  function Held(o: Option<Conn>): multiset<Conn> {
    if o.None? then multiset{} else multiset{o.value}
  }

  ghost predicate IsFull(s: State<Conn>) { s.rpos <= s.cap && s.wpos <= s.cap && NElem(s.rpos, s.wpos, s.cap) == s.cap }
  ghost predicate IsEmpty(s: State<Conn>) { s.rpos <= s.cap && s.wpos <= s.cap && NElem(s.rpos, s.wpos, s.cap) == 0 }

  // Steps that take a connection in or let one out

  ghost predicate Offer(h: Half, h': Half, x: Conn) {
    h.hand.None? && h.ring.prod.Idle? && !h.owed && h' == h.(hand := Some(x))
  }

  /** The connection could not be accepted, or the ring is full. */
  ghost predicate Fail(h: Half, h': Half, x: Conn) {
    h.hand == Some(x) && h' == h.(hand := None)
  }

  ghost predicate Take(h: Half, h': Half, x: Conn) {
    h.got == Some(x) && h.left > 0 && h' == h.(got := None, left := h.left - 1)
  }

  // Steps within one direction

  ghost predicate BeginPush(h: Half, h': Half) {
    && h.hand.Some? && !IsFull(h.ring) && CheckFull(h.ring, h'.ring, h.hand.value)
    && h' == h.(ring := h'.ring, hand := None)
  }

  ghost predicate Store(h: Half, h': Half) {
    WriteSlot(h.ring, h'.ring) && h' == h.(ring := h'.ring)
  }

  ghost predicate EndPush(h: Half, h': Half) {
    PublishWrite(h.ring, h'.ring) && h' == h.(ring := h'.ring, owed := true)
  }

  ghost predicate Notify(h: Half, h': Half) {
    h.owed && h' == h.(pipe := h.pipe + 1, owed := false)
  }

  ghost predicate Receive(h: Half, h': Half, k: nat) {
    h.left == 0 && h.ring.cons.Resting? && 1 <= k <= h.pipe && k <= CAP && h' == h.(pipe := h.pipe - k, left := k)
  }

  ghost predicate BeginPop(h: Half, h': Half) {
    h.left > 0 && h.got.None? && !IsEmpty(h.ring) && CheckEmpty(h.ring, h'.ring) && h' == h.(ring := h'.ring)
  }

  /** There are fewer connections than notifications: the consumer gives up. */
  ghost predicate Missing(h: Half, h': Half) {
    h.left > 0 && h.got.None? && h.ring.cons.Resting? && IsEmpty(h.ring) && h' == h.(left := 0)
  }

  ghost predicate Load(h: Half, h': Half) {
    ReadSlot(h.ring, h'.ring) && h' == h.(ring := h'.ring)
  }

  ghost predicate EndPop(h: Half, h': Half) {
    PublishRead(h.ring, h'.ring) && h' == h.(ring := h'.ring, got := Some(h.ring.cons.x))
  }

  ghost predicate Inside(h: Half, h': Half) {
    || BeginPush(h, h') || Store(h, h') || EndPush(h, h') || Notify(h, h')
    || (exists k :: Receive(h, h', k))
    || BeginPop(h, h') || Missing(h, h') || Load(h, h') || EndPop(h, h')
  }

  /** A consumer with notifications left never finds the ring empty. */
  lemma NeverMissing(h: Half, h': Half)
    requires h.Inv()
    ensures !Missing(h, h')
  {
    NElemIs(h.ring.gone, |h.ring.pushed|, h.ring.cap);
  }

  /** A pipe that holds CAP bytes has room whenever a byte is owed to it. */
  lemma NeverBlocks(h: Half)
    requires h.Inv()
    ensures h.pipe <= CAP && (h.owed ==> h.pipe < CAP)
  {
  }

  lemma BeginPushKeeps(h: Half, h': Half)
    requires h.Inv() && BeginPush(h, h')
    ensures h'.Inv() && h'.Carries() == h.Carries()
  {
    CheckFullKeeps(h.ring, h'.ring, h.hand.value);
    hide State.Inv;
  }

  lemma StoreKeeps(h: Half, h': Half)
    requires h.Inv() && Store(h, h')
    ensures h'.Inv() && h'.Carries() == h.Carries()
  {
    WriteKeeps(h.ring, h'.ring);
    hide State.Inv;
  }

  /** What goes into the ring is what the producer had in hand. */
  lemma EndPushKeeps(h: Half, h': Half)
    requires h.Inv() && EndPush(h, h')
    ensures h'.Inv() && h'.Carries() == h.Carries()
  {
    RingBounds(h.ring);
    hide State.Inv;
    PublishWriteKeeps(h.ring, h'.ring);
    RingBounds(h'.ring);
  }

  lemma RingBounds(s: State<Conn>)
    requires s.Inv()
    ensures s.gone <= |s.pushed|
  {
  }

  lemma PushKeeps(h: Half, h': Half)
    requires h.Inv() && (BeginPush(h, h') || Store(h, h') || EndPush(h, h') || Notify(h, h'))
    ensures h'.Inv() && h'.Carries() == h.Carries()
  {
    hide State.Inv;
    if BeginPush(h, h') {
      BeginPushKeeps(h, h');
    } else if Store(h, h') {
      StoreKeeps(h, h');
    } else if EndPush(h, h') {
      EndPushKeeps(h, h');
    }
  }

  lemma LoadKeeps(h: Half, h': Half)
    requires h.Inv() && (BeginPop(h, h') || Load(h, h'))
    ensures h'.Inv() && h'.Carries() == h.Carries()
  {
    ReadKeeps(h.ring, h'.ring);
    hide State.Inv;
  }

  /** What the consumer has got is what leaves the ring. */
  lemma EndPopKeeps(h: Half, h': Half)
    requires h.Inv() && EndPop(h, h')
    ensures h'.Inv() && h'.Carries() == h.Carries()
  {
    RingBounds(h.ring);
    hide State.Inv;
    PublishReadKeeps(h.ring, h'.ring);
    RingBounds(h'.ring);
  }

  lemma PopKeeps(h: Half, h': Half)
    requires h.Inv() && (BeginPop(h, h') || Load(h, h') || EndPop(h, h') || exists k :: Receive(h, h', k))
    ensures h'.Inv() && h'.Carries() == h.Carries()
  {
    hide State.Inv;
    if BeginPop(h, h') || Load(h, h') {
      LoadKeeps(h, h');
    } else if EndPop(h, h') {
      EndPopKeeps(h, h');
    }
  }

  lemma InsideKeeps(h: Half, h': Half)
    requires h.Inv() && Inside(h, h')
    ensures h'.Inv() && h'.Carries() == h.Carries()
  {
    if BeginPush(h, h') || Store(h, h') || EndPush(h, h') || Notify(h, h') {
      PushKeeps(h, h');
    } else {
      NeverMissing(h, h');
      PopKeeps(h, h');
    }
  }

  lemma OfferKeeps(h: Half, h': Half, x: Conn)
    requires h.Inv() && Offer(h, h', x)
    ensures h'.Inv() && h'.Carries() == h.Carries() + multiset{x}
  {
  }

  lemma OutKeeps(h: Half, h': Half, x: Conn)
    requires h.Inv() && (Fail(h, h', x) || Take(h, h', x))
    ensures h'.Inv() && h.Carries() == h'.Carries() + multiset{x}
  {
    RingBounds(h.ring);
    hide State.Inv;
  }

  // ---------------------------------------------------------------------------
  // Both directions
  // ---------------------------------------------------------------------------

  /** New connections go from the server to the worker, finished ones back; the pool has the others. */
  datatype System = System(toWorker: Half, toServer: Half, pool: set<Conn>, worker: set<Conn>, all: set<Conn>)
  {
    /** Every connection is in exactly one place. */
    ghost predicate Inv() {
      && toWorker.Inv() && toServer.Inv()
      && multiset(pool) + multiset(worker) + toWorker.Carries() + toServer.Carries() == multiset(all)
    }
  }

  ghost predicate Start(s: System) {
    && s.pool == s.all && s.worker == {}
    && (forall h :: h == s.toWorker || h == s.toServer ==>
          Init(h.ring) && h.ring.cap == CAP && h.pipe == h.left == 0 && !h.owed && h.hand.None? && h.got.None?)
  }

  /** The server accepts a connection, with an object borrowed from the pool. */
  ghost predicate Borrow(s: System, s': System, x: Conn) {
    x in s.pool && Offer(s.toWorker, s'.toWorker, x) && s' == s.(toWorker := s'.toWorker, pool := s.pool - {x})
  }

  /** It cannot: the accept failed or the queue is full. */
  ghost predicate Reject(s: System, s': System, x: Conn) {
    Fail(s.toWorker, s'.toWorker, x) && s' == s.(toWorker := s'.toWorker, pool := s.pool + {x})
  }

  /** The worker adds a connection it has popped. */
  ghost predicate Add(s: System, s': System, x: Conn) {
    Take(s.toWorker, s'.toWorker, x) && s' == s.(toWorker := s'.toWorker, worker := s.worker + {x})
  }

  /** The worker is done with a connection. */
  ghost predicate Retire(s: System, s': System, x: Conn) {
    x in s.worker && Offer(s.toServer, s'.toServer, x) && s' == s.(toServer := s'.toServer, worker := s.worker - {x})
  }

  /** The queue back is full, so the worker itself returns the connection to the pool. */
  ghost predicate CleanUp(s: System, s': System, x: Conn) {
    && IsFull(s.toServer.ring) && Fail(s.toServer, s'.toServer, x)
    && s' == s.(toServer := s'.toServer, pool := s.pool + {x})
  }

  /** The server returns a connection it has popped to the pool. */
  ghost predicate Recycle(s: System, s': System, x: Conn) {
    Take(s.toServer, s'.toServer, x) && s' == s.(toServer := s'.toServer, pool := s.pool + {x})
  }

  ghost predicate Moves(s: System, s': System, x: Conn) {
    || Borrow(s, s', x) || Reject(s, s', x) || Add(s, s', x)
    || Retire(s, s', x) || CleanUp(s, s', x) || Recycle(s, s', x)
  }

  ghost predicate Step(s: System, s': System) {
    || (exists x :: Moves(s, s', x))
    || (Inside(s.toWorker, s'.toWorker) && s' == s.(toWorker := s'.toWorker))
    || (Inside(s.toServer, s'.toServer) && s' == s.(toServer := s'.toServer))
  }

  /** What is carried is in neither set: a place holds a connection once. */
  lemma Elsewhere(s: System, x: Conn)
    requires s.Inv() && (x in s.toWorker.Carries() || x in s.toServer.Carries())
    ensures x !in s.pool && x !in s.worker
  {
    assert multiset(s.all)[x] <= 1;
  }

  lemma AddOne(p: set<Conn>, x: Conn)
    requires x !in p
    ensures multiset(p + {x}) == multiset(p) + multiset{x}
  {
  }

  lemma LessOne(p: set<Conn>, x: Conn)
    requires x in p
    ensures multiset(p) == multiset(p - {x}) + multiset{x}
  {
  }

  lemma MovesKeeps(s: System, s': System, x: Conn)
    requires s.Inv() && Moves(s, s', x)
    ensures s'.Inv() && s'.all == s.all
  {
    hide Half.Inv, Half.Carries, State.Inv;
    if Borrow(s, s', x) {
      OfferKeeps(s.toWorker, s'.toWorker, x);
      LessOne(s.pool, x);
    } else if Retire(s, s', x) {
      OfferKeeps(s.toServer, s'.toServer, x);
      LessOne(s.worker, x);
    } else if Reject(s, s', x) || Add(s, s', x) {
      OutKeeps(s.toWorker, s'.toWorker, x);
      Elsewhere(s, x);
      AddOne(s.pool, x);
      AddOne(s.worker, x);
    } else {
      OutKeeps(s.toServer, s'.toServer, x);
      Elsewhere(s, x);
      AddOne(s.pool, x);
    }
  }

  lemma StepKeeps(s: System, s': System)
    requires s.Inv() && Step(s, s')
    ensures s'.Inv() && s'.all == s.all
  {
    hide Half.Inv, Half.Carries, State.Inv, Inside, Moves;
    if x :| Moves(s, s', x) {
      MovesKeeps(s, s', x);
    } else if Inside(s.toWorker, s'.toWorker) && s' == s.(toWorker := s'.toWorker) {
      InsideKeeps(s.toWorker, s'.toWorker);
    } else {
      InsideKeeps(s.toServer, s'.toServer);
    }
  }

  ghost predicate IsRun(run: seq<System>) {
    |run| > 0 && Start(run[0]) && forall i :: 0 <= i < |run| - 1 ==> Step(run[i], run[i + 1])
  }

  lemma StartInv(s: System)
    requires Start(s)
    ensures s.Inv()
  {
    assert Pos(0, CAP + 1) == 0;
    assert s.toWorker.Inv() && s.toServer.Inv();
    assert s.toWorker.Carries() == s.toServer.Carries() == multiset{};
  }

  lemma {:induction false} RunKeeps(run: seq<System>, i: nat)
    requires IsRun(run) && i < |run|
    ensures run[i].Inv() && run[i].all == run[0].all
  {
    if i == 0 {
      StartInv(run[0]);
    } else {
      RunKeeps(run, i - 1);
      assert Step(run[i - 1], run[i]);
      StepKeeps(run[i - 1], run[i]);
    }
  }

  /** In how many places a connection is. */
  ghost function Places(s: System, x: Conn): nat
    requires s.Inv()
  {
    One(x in s.pool) + One(x in s.worker) + s.toWorker.Carries()[x] + s.toServer.Carries()[x]
  }

  function One(b: bool): nat { if b then 1 else 0 }

  /** In every state of every run: no connection is missing or lost or in two places, and no pipe is full. */
  lemma RunSafe(run: seq<System>, i: nat)
    requires IsRun(run) && i < |run|
    ensures run[i].Inv() && forall x :: Places(run[i], x) == One(x in run[0].all)
    ensures forall h' :: !Missing(run[i].toWorker, h') && !Missing(run[i].toServer, h')
    ensures run[i].toWorker.owed ==> run[i].toWorker.pipe < CAP
    ensures run[i].toServer.owed ==> run[i].toServer.pipe < CAP
  {
    RunKeeps(run, i);
    var s := run[i];
    forall x ensures Places(s, x) == One(x in run[0].all) {
      assert (multiset(s.pool) + multiset(s.worker) + s.toWorker.Carries() + s.toServer.Carries())[x]
          == multiset(s.all)[x];
    }
    forall h' ensures !Missing(s.toWorker, h') && !Missing(s.toServer, h') {
      NeverMissing(s.toWorker, h');
      NeverMissing(s.toServer, h');
    }
    NeverBlocks(s.toWorker);
    NeverBlocks(s.toServer);
  }
}
