/**
 * The server's side of a session: responses are composed into the write buffer, and a queue
 * remembers how many bytes of each have yet to leave it, so that the latency of a response can
 * be recorded when its last byte does.
 */
module ServerSession {
  import opened Basics
  import opened SessionBuffer

  type Instant = int

  /** A response that has not left entirely: when its request came, if known, and what is left of it. */
  datatype Response = Response(stamp: Option<Instant>, size: nat)

  ghost predicate Positive(o: seq<Response>) {
    forall i :: 0 <= i < |o| ==> o[i].size > 0
  }

  ghost function Sum(o: seq<Response>): nat {
    if o == [] then 0 else o[0].size + Sum(o[1..])
  }

  function Time(x: Response): seq<Instant> { if x.stamp.Some? then [x.stamp.value] else [] }

  /** The times among the stamps. */
  function Times(o: seq<Response>): seq<Instant> {
    if o == [] then [] else Time(o[0]) + Times(o[1..])
  }

  // ---------------------------------------------------------------------------
  // Bytes leave, from the front of the queue
  // ---------------------------------------------------------------------------

  /** How many responses leave entirely with amt bytes. */
  ghost function Whole(o: seq<Response>, amt: nat): (k: nat)
    ensures k <= |o|
  {
    if o == [] || o[0].size > amt then 0 else 1 + Whole(o[1..], amt - o[0].size)
  }

  /** The times of those responses. */
  ghost function Left(o: seq<Response>, amt: nat): (t: seq<Instant>) {
    if o == [] || o[0].size > amt then [] else Time(o[0]) + Left(o[1..], amt - o[0].size)
  }

  lemma {:induction false} LeftIs(o: seq<Response>, amt: nat)
    ensures Left(o, amt) == Times(o[..Whole(o, amt)])
  {
    if o != [] && o[0].size <= amt {
      var k := Whole(o, amt);
      LeftIs(o[1..], amt - o[0].size);
      assert o[..k][1..] == o[1..][..k - 1];
    }
  }

  /** What is left of the queue after that. */
  ghost function Rest(o: seq<Response>, amt: nat): (r: seq<Response>) {
    if o == [] then []
    else if o[0].size > amt then [o[0].(size := o[0].size - amt)] + o[1..]
    else Rest(o[1..], amt - o[0].size)
  }

  /** Exactly those responses have left whose last byte is among the first amt. */
  lemma {:induction false} WholeIs(o: seq<Response>, amt: nat, i: nat)
    requires i < |o|
    ensures i < Whole(o, amt) <==> Sum(o[..i + 1]) <= amt
  {
    assert o[..i + 1][1..] == o[1..][..i];
    if o[0].size <= amt && i > 0 {
      WholeIs(o[1..], amt - o[0].size, i - 1);
    }
  }

  lemma {:induction false} RestSum(o: seq<Response>, amt: nat)
    requires Positive(o)
    ensures Positive(Rest(o, amt)) && Sum(Rest(o, amt)) == if Sum(o) >= amt then Sum(o) - amt else 0
  {
    if o != [] {
      if o[0].size > amt {
        var r := Rest(o, amt);
        assert r[1..] == o[1..];
      } else {
        RestSum(o[1..], amt - o[0].size);
      }
    }
  }

  lemma {:induction false} SumConcat(a: seq<Response>, b: seq<Response>)
    ensures Sum(a + b) == Sum(a) + Sum(b)
  {
    if a == [] {
      assert a + b == b;
    } else {
      assert (a + b)[1..] == a[1..] + b;
      SumConcat(a[1..], b);
    }
  }

  /** Bytes that leave in two portions leave as those that do in one. */
  lemma {:induction false} Portions(o: seq<Response>, a: nat, b: nat)
    requires Positive(o)
    ensures Rest(o, a + b) == Rest(Rest(o, a), b)
    ensures Left(o, a + b) == Left(o, a) + Left(Rest(o, a), b)
  {
    if o != [] {
      if o[0].size > a {
        var r := Rest(o, a);
        assert r[1..] == o[1..] && r[0].stamp == o[0].stamp;
      } else {
        Portions(o[1..], a - o[0].size, b);
      }
    }
  }

  /** A response that is added at the end does not matter to bytes of those before it. */
  lemma {:induction false} AddResponse(o: seq<Response>, amt: nat, x: Response)
    requires Positive(o) && amt <= Sum(o) && x.size > 0
    ensures Rest(o + [x], amt) == Rest(o, amt) + [x] && Left(o + [x], amt) == Left(o, amt)
  {
    if o != [] {
      assert (o + [x])[1..] == o[1..] + [x];
      if o[0].size <= amt {
        AddResponse(o[1..], amt - o[0].size, x);
      }
    }
  }

  // ---------------------------------------------------------------------------
  // The session
  // ---------------------------------------------------------------------------

  /** What one write to the stream comes to. */
  datatype Io = Wrote(n: nat) | Interrupted | WouldBlock | Failed

  datatype Outcome = Flushed | Blocked | Broken

  /** What the writes come to until the first that blocks or fails. */
  function Stop(io: seq<Io>): (i: nat)
    ensures i <= |io| && (i < |io| ==> io[i].WouldBlock? || io[i].Failed?)
    ensures forall k :: 0 <= k < i ==> io[k].Wrote? || io[k].Interrupted?
  {
    if io == [] || io[0].WouldBlock? || io[0].Failed? then 0 else 1 + Stop(io[1..])
  }

  function Written(io: seq<Io>): nat {
    if io == [] then 0
    else
      var e := io[|io| - 1];
      Written(io[..|io| - 1]) + if e.Wrote? then e.n else 0
  }

  /** How many bytes the stream is ready to take. */
  function Offered(io: seq<Io>): nat { Written(io[..Stop(io)]) }

  /** The stream fails before it has taken n bytes. */
  predicate Breaks(io: seq<Io>, n: nat) {
    Stop(io) < |io| && io[Stop(io)].Failed? && Offered(io) < n
  }

  /** How a flush of n bytes ends. */
  function Ending(io: seq<Io>, n: nat): Outcome {
    if Breaks(io, n) then Broken else if n > 0 && Offered(io) == 0 then Blocked else Flushed
  }

  lemma {:induction false} WrittenMore(io: seq<Io>, i: nat, k: nat)
    requires i <= k <= |io|
    ensures Written(io[..i]) <= Written(io[..k])
  {
    if i < k {
      WrittenMore(io, i, k - 1);
      assert io[..k][..k - 1] == io[..k - 1];
    }
  }

  lemma WrittenNext(io: seq<Io>, i: nat)
    requires i < |io|
    ensures Written(io[..i + 1]) == Written(io[..i]) + if io[i].Wrote? then io[i].n else 0
  {
    assert io[..i + 1][..i] == io[..i];
  }

  class Session {
    const out: Buffer
    /** When the requests came that have not been answered yet. */
    var pending: seq<Instant>
    var outstanding: seq<Response>
    /** Requests whose latency was recorded when their response left, and those with an empty response. */
    var recorded: seq<Instant>
    var empty: seq<Instant>
    /** What the stream has taken. */
    var sent: seq<Byte>

    /** All responses there were, and how many bytes of theirs were accounted for. */
    ghost var log: seq<Response>
    ghost var counted: nat

    /** The queue and the record follow from the responses and the bytes accounted for. */
    ghost predicate Valid()
      reads this, out, out.data
    {
      && out.Valid() && Positive(log) && Positive(outstanding)
      && counted <= |sent| && |sent| + |out.Contents()| == Sum(log)
      && outstanding == Rest(log, counted)
      && recorded == Left(log, counted)
    }

    /** Nothing has left unaccounted for. */
    ghost predicate InStep()
      reads this
    {
      counted == |sent|
    }

    constructor (size: nat)
      ensures Valid() && InStep() && fresh(out) && fresh(out.data) && out.Contents() == [] && sent == []
    {
      out := new Buffer(size);
      pending, outstanding, recorded, empty, sent := [], [], [], [], [];
      log, counted := [], 0;
    }

    /** As long as everything is accounted for, the queue holds as many bytes as the buffer. */
    lemma QueueMatches()
      requires Valid()
      ensures Sum(outstanding) == |out.Contents()| + (|sent| - counted)
      ensures InStep() <==> Sum(outstanding) == |out.Contents()|
    {
      RestSum(log, counted);
    }

    /** A request was parsed. */
    method Receive(now: Instant)
      requires Valid()
      modifies `pending
      ensures Valid() && pending == old(pending) + [now]
    {
      pending := pending + [now];
    }

    /** Send a response, whose bytes are `msg`; it answers the oldest request. */
    method Send(msg: seq<Byte>) returns (size: nat)
      requires Valid()
      modifies this, out, out.data
      ensures Valid() && size == |msg| && (out.data == old(out.data) || fresh(out.data))
      ensures out.Contents() == old(out.Contents()) + msg && sent == old(sent) && counted == old(counted)
      ensures pending == if old(pending) == [] then [] else old(pending)[1..]
      ensures var stamp := if old(pending) == [] then None else Some(old(pending)[0]);
              && log == (if msg == [] then old(log) else old(log) + [Response(stamp, |msg|)])
              && recorded == old(recorded)
              && empty == (if msg == [] && stamp.Some? then old(empty) + [stamp.value] else old(empty))
    {
      hide Rest, Left, Sum;
      var stamp := None;
      if pending != [] {
        stamp := Some(pending[0]);
        pending := pending[1..];
      }
      out.PutSlice(msg);
      size := |msg|;
      if size == 0 {
        if stamp.Some? {
          empty := empty + [stamp.value];
        }
      } else {
        var x := Response(stamp, size);
        AddResponse(log, counted, x);
        SumConcat(log, [x]);
        SumOne(x);
        outstanding := outstanding + [x];
        log := log + [x];
      }
    }

    /** Account for amt bytes that have left. */
    method AdvanceWrite(amt: nat)
      requires out.Valid() && Positive(log) && Positive(outstanding)
      requires outstanding == Rest(log, counted) && recorded == Left(log, counted)
      modifies `outstanding, `recorded, `counted
      ensures Positive(outstanding) && counted == old(counted) + amt
      ensures outstanding == Rest(log, counted) && recorded == Left(log, counted)
    {
      hide Rest, Left;
      Portions(log, counted, amt);
      RestSum(log, counted + amt);
      var times;
      outstanding, times := Drain(outstanding, amt);
      recorded := recorded + times;
      counted := counted + amt;
    }

    /** One write, of which the stream takes n bytes, or all there are. */
    method WriteOnce(n: nat) returns (m: nat)
      requires out.Valid()
      modifies `sent, out, out.data
      ensures out.Valid() && (out.data == old(out.data) || fresh(out.data)) && m == Min(n, |old(out.Contents())|)
      ensures out.Contents() == old(out.Contents())[m..] && sent == old(sent) + old(out.Contents())[..m]
      ensures out.Remaining() == old(out.Remaining()) - m
    {
      m := Min(n, out.Remaining());
      assert out.data[out.readOffset..out.readOffset + m] == out.Contents()[..m];
      sent := sent + out.data[out.readOffset..out.readOffset + m];
      out.Advance(m);
    }

    /**
     * Write to the stream until the buffer is empty or the stream does not take more; io is what
     * the writes come to, after which the stream would block.
     */
    method FlushBuffer(io: seq<Io>) returns (r: Outcome, flushed: nat)
      requires out.Valid()
      modifies `sent, out, out.data
      ensures out.Valid() && (out.data == old(out.data) || fresh(out.data))
      ensures flushed == Min(Offered(io), |old(out.Contents())|) && r == Ending(io, |old(out.Contents())|)
      ensures out.Contents() == old(out.Contents())[flushed..] && sent == old(sent) + old(out.Contents())[..flushed]
    {
      hide Written, Stop, Offered, Breaks, Ending;
      ghost var c := out.Contents();
      flushed := 0;
      var i := 0;
      StopFrom(io, 0);
      while out.Remaining() > 0
        invariant i <= Stop(io) && out.Valid() && (out.data == old(out.data) || fresh(out.data))
        invariant flushed == Min(Written(io[..i]), |c|) && out.Remaining() == |c| - flushed
        invariant out.Contents() == c[flushed..] && sent == old(sent) + c[..flushed]
        decreases |io| - i
      {
        StopFrom(io, i);
        if i == Stop(io) {
          StopsHere(io, |c|, i, flushed);
        }
        if i == |io| || io[i].WouldBlock? {
          return if flushed == 0 then Blocked else Flushed, flushed;
        }
        if io[i].Failed? {
          return Broken, flushed;
        }
        WrittenNext(io, i);
        if io[i].Wrote? {
          var m := WriteOnce(io[i].n);
          TakeMore(old(sent), c, flushed, m);
          flushed := flushed + m;
        }
        i := i + 1;
      }
      FlushedAll(io, |c|, i);
      r := Flushed;
    }

    /**
     * Flush the buffer and account for what has left. If the stream fails after it has taken
     * something, and before it has taken everything, that is not accounted for.
     */
    method Flush(io: seq<Io>) returns (r: Outcome)
      requires Valid()
      modifies this, out, out.data
      ensures Valid() && (out.data == old(out.data) || fresh(out.data)) && r == Ending(io, |old(out.Contents())|)
      ensures log == old(log) && pending == old(pending) && empty == old(empty)
      ensures var m := Min(Offered(io), |old(out.Contents())|);
              && out.Contents() == old(out.Contents())[m..] && sent == old(sent) + old(out.Contents())[..m]
              && counted == old(counted) + if Breaks(io, |old(out.Contents())|) then 0 else m
      ensures InStep() <==>
                if Breaks(io, |old(out.Contents())|) && Offered(io) > 0 then false else old(InStep())
    {
      hide Rest, Left, Sum, Written, Stop;
      var current := out.Remaining();
      var flushed;
      r, flushed := FlushBuffer(io);
      if r == Flushed {
        AdvanceWrite(current - out.Remaining());
      }
    }
  }

  /** At the first write that blocks or fails, or where there are no more. */
  lemma StopFrom(io: seq<Io>, i: nat)
    requires i <= Stop(io)
    ensures i == |io| || io[i].WouldBlock? || io[i].Failed? ==> i == Stop(io)
    ensures i < |io| && (io[i].Wrote? || io[i].Interrupted?) ==> i < Stop(io)
    ensures io[..0] == [] && Written([]) == 0
  {
  }

  /** A flush that stops with bytes left. */
  lemma StopsHere(io: seq<Io>, n: nat, i: nat, flushed: nat)
    requires i == Stop(io) && flushed == Min(Written(io[..i]), n) && flushed < n
    ensures flushed == Min(Offered(io), n)
    ensures Ending(io, n) == if i < |io| && io[i].Failed? then Broken else if flushed == 0 then Blocked else Flushed
  {
  }

  /** A flush that leaves nothing. */
  lemma FlushedAll(io: seq<Io>, n: nat, i: nat)
    requires i <= Stop(io) && Written(io[..i]) >= n
    ensures n == Min(Offered(io), n) && Ending(io, n) == Flushed
  {
    WrittenMore(io, i, Stop(io));
  }

  /** A stream that takes one of two bytes and then fails. */
  lemma BreakExample()
    ensures var io := [Wrote(1), Failed];
            Stop(io) == 1 && Offered(io) == 1 && Breaks(io, 2) && Ending(io, 2) == Broken
  {
    var io := [Wrote(1), Failed];
    assert io[1..] == [Failed];
    assert io[..1] == [Wrote(1)] && [Wrote(1)][..0] == [];
  }

  /** The byte that stream took is never accounted for. */
  method SendAndBreak() returns (s: Session, r: Outcome)
    ensures s.Valid() && r == Broken && |s.sent| == 1 && s.counted == 0 && !s.InStep()
  {
    s := new Session(8);
    var size := s.Send([1, 2]);
    BreakExample();
    r := s.Flush([Wrote(1), Failed]);
  }

  /** Take amt bytes off a queue, and the times of the responses that leave entirely. */
  method Drain(o: seq<Response>, amt: nat) returns (rest: seq<Response>, times: seq<Instant>)
    requires Positive(o)
    ensures rest == Rest(o, amt) && times == Left(o, amt)
  {
    rest, times := o, [];
    var left: nat := amt;
    while left > 0 && rest != []
      invariant Positive(rest) && Rest(rest, left) == Rest(o, amt) && times + Left(rest, left) == Left(o, amt)
      decreases |rest|
    {
      var front := rest[0];
      if front.size > left {
        rest := [front.(size := front.size - left)] + rest[1..];
        return;
      }
      left := left - front.size;
      rest := rest[1..];
      times := times + Time(front);
    }
    RestNone(rest);
  }

  lemma RestNone(o: seq<Response>)
    requires Positive(o)
    ensures Rest(o, 0) == o && Left(o, 0) == []
  {
    if o != [] {
      assert o == [o[0]] + o[1..];
    }
  }

  lemma TakeMore(a: seq<Byte>, c: seq<Byte>, i: nat, m: nat)
    requires i + m <= |c|
    ensures a + c[..i] + c[i..][..m] == a + c[..i + m] && c[i..][m..] == c[i + m..]
  {
    assert c[..i + m] == c[..i] + c[i..][..m];
  }

  lemma SumOne(x: Response)
    ensures Sum([x]) == x.size
  {
    assert [x][1..] == [];
  }
}
