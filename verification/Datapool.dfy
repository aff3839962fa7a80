/**
 * The file-backed pool: while it is open its header is marked dirty, and closing it writes
 * everything to storage before the mark is cleared, so that an interrupted use is noticed.
 *
 * What is written to the mapped memory may reach storage at any time, in any order, or not at
 * all, until it is synced.
 */
module Datapool {
  import opened Basics

  const VERSION: nat := 1

  /** Bit 0 of the flags is the dirty mark; no other is in use. */
  datatype Header = Header(signed: bool, version: nat, size: nat, flags: nat, owner: string, note: seq<Byte>)

  datatype Image = Image(hdr: Header, user: seq<Byte>) {
    /** What the user has stored: the bytes, and the note in the header. */
    function Data(): (seq<Byte>, seq<Byte>) { (user, hdr.note) }
  }

  predicate Dirty(h: Header) { h.flags % 2 == 1 }

  /** A pool that can be taken over as it is. */
  predicate ValidHeader(h: Header, mapped: nat) {
    h.signed && h.version == VERSION && h.size != 0 && h.size <= mapped && h.flags / 2 == 0 && !Dirty(h)
  }

  function SetDirty(h: Header): Header { if Dirty(h) then h else h.(flags := h.flags + 1) }

  function ClearDirty(h: Header): Header { if Dirty(h) then h.(flags := h.flags - 1) else h }

  function FreshHeader(mapped: nat, owner: string, n: nat): Header {
    Header(true, VERSION, mapped, 0, owner, seq(n, _ => 0))
  }

  // ---------------------------------------------------------------------------
  // The code: memory and storage
  // ---------------------------------------------------------------------------

  class Pool {
    const mapped: nat
    const noteLen: nat
    var mem: Image
    var disk: Image

    constructor (mapped: nat, noteLen: nat, disk: Image)
      ensures this.mapped == mapped && this.noteLen == noteLen && mem == this.disk == disk
    {
      this.mapped, this.noteLen := mapped, noteLen;
      mem, this.disk := disk, disk;
    }

    method SyncHdr()
      modifies `disk
      ensures disk == old(disk).(hdr := mem.hdr)
    {
      disk := disk.(hdr := mem.hdr);
    }

    method Sync()
      modifies `disk
      ensures disk == mem
    {
      disk := mem;
    }

    /** Clear the header, fill it in, and only then sign it; each part is synced before the next. */
    method Initialize(owner: string)
      modifies this
      ensures mem == old(mem).(hdr := FreshHeader(mapped, owner, noteLen)) && disk == old(disk).(hdr := mem.hdr)
    {
      mem := mem.(hdr := Header(false, 0, 0, 0, "", seq(noteLen, _ => 0)));
      SyncHdr();
      mem := mem.(hdr := mem.hdr.(version := VERSION, size := mapped, flags := 0, owner := owner));
      SyncHdr();
      mem := mem.(hdr := mem.hdr.(signed := true));
      SyncHdr();
    }

    /** Map the file: a pool that is not valid is set up afresh. It is dirty until it is closed. */
    method Open(owner: string) returns (ok: bool, isFresh: bool)
      requires mem == disk
      modifies this
      ensures isFresh <==> !ValidHeader(old(disk).hdr, mapped)
      ensures ok <==> isFresh || old(disk).hdr.owner == owner
      ensures !ok ==> mem == disk == old(disk)
      ensures ok ==> mem == disk == Opened(old(disk), owner, mapped, noteLen)
    {
      isFresh := !ValidHeader(mem.hdr, mapped);
      if isFresh {
        Initialize(owner);
      } else if mem.hdr.owner != owner {
        return false, false;
      }
      mem := mem.(hdr := SetDirty(mem.hdr));
      SyncHdr();
      ok := true;
    }

    method Close()
      modifies this
      ensures mem == old(mem).(hdr := ClearDirty(old(mem).hdr)) && disk == mem
    {
      Sync();
      mem := mem.(hdr := ClearDirty(mem.hdr));
      SyncHdr();
    }
  }

  /** What opening makes of what is on storage. */
  function Opened(disk: Image, owner: string, mapped: nat, noteLen: nat): Image {
    disk.(hdr := SetDirty(if ValidHeader(disk.hdr, mapped) then disk.hdr else FreshHeader(mapped, owner, noteLen)))
  }

  // ---------------------------------------------------------------------------
  // Runs with crashes
  // ---------------------------------------------------------------------------

  /** Closing takes three steps: everything is synced, the mark is cleared, the header is synced. */
  datatype Phase = Closed | InUse | Synced | Cleared

  /**
   * `closing` is what the user had stored when a close last cleared the mark, and `completed` the
   * same for the last close that came to its end; `ended` tells whether the two are one close.
   */
  datatype State = State(phase: Phase, mem: Image, disk: Image,
                         closing: Option<(seq<Byte>, seq<Byte>)>, completed: Option<(seq<Byte>, seq<Byte>)>,
                         ended: bool)

  ghost predicate MixedBytes(a: seq<Byte>, b: seq<Byte>, c: seq<Byte>) {
    |a| == |b| == |c| && forall i :: 0 <= i < |c| ==> c[i] == a[i] || c[i] == b[i]
  }

  /** Any part of what is in memory, and not in storage, may have got there. */
  ghost predicate Mixed(disk: Image, mem: Image, disk': Image) {
    && (disk'.hdr.signed == disk.hdr.signed || disk'.hdr.signed == mem.hdr.signed)
    && (disk'.hdr.version == disk.hdr.version || disk'.hdr.version == mem.hdr.version)
    && (disk'.hdr.size == disk.hdr.size || disk'.hdr.size == mem.hdr.size)
    && (disk'.hdr.flags == disk.hdr.flags || disk'.hdr.flags == mem.hdr.flags)
    && (disk'.hdr.owner == disk.hdr.owner || disk'.hdr.owner == mem.hdr.owner)
    && MixedBytes(disk.hdr.note, mem.hdr.note, disk'.hdr.note) && MixedBytes(disk.user, mem.user, disk'.user)
  }

  ghost predicate OpenStep(s: State, s': State, owner: string, mapped: nat, noteLen: nat) {
    && s.phase == Closed && (!ValidHeader(s.disk.hdr, mapped) || s.disk.hdr.owner == owner)
    && var m := Opened(s.disk, owner, mapped, noteLen);
       s' == s.(phase := InUse, mem := m, disk := m)
  }

  /** The user writes to the pool, or to the header's note. */
  ghost predicate WriteStep(s: State, s': State, user: seq<Byte>, note: seq<Byte>) {
    && s.phase == InUse && |user| == |s.mem.user| && |note| == |s.mem.hdr.note|
    && s' == s.(mem := Image(s.mem.hdr.(note := note), user))
  }

  ghost predicate WriteBack(s: State, s': State) {
    s.phase != Closed && Mixed(s.disk, s.mem, s'.disk) && s' == s.(disk := s'.disk)
  }

  ghost predicate SyncStep(s: State, s': State) {
    s.phase == InUse && s' == s.(phase := Synced, disk := s.mem)
  }

  ghost predicate ClearStep(s: State, s': State) {
    s.phase == Synced &&
    s' == s.(phase := Cleared, mem := s.mem.(hdr := ClearDirty(s.mem.hdr)), closing := Some(s.mem.Data()),
             ended := false)
  }

  ghost predicate EndStep(s: State, s': State) {
    s.phase == Cleared &&
    s' == s.(phase := Closed, disk := s.disk.(hdr := s.mem.hdr), completed := s.closing, ended := true)
  }

  /** The machine stops: what is in memory is lost, but for what has reached storage by then. */
  ghost predicate Crash(s: State, s': State) {
    s.phase != Closed && Mixed(s.disk, s.mem, s'.disk) && s' == s.(phase := Closed, disk := s'.disk)
  }

  ghost predicate Step(s: State, s': State, mapped: nat, noteLen: nat) {
    || (exists owner :: OpenStep(s, s', owner, mapped, noteLen))
    || (exists user, note :: WriteStep(s, s', user, note))
    || WriteBack(s, s') || SyncStep(s, s') || ClearStep(s, s') || EndStep(s, s') || Crash(s, s')
  }

  /** Header fields that nobody writes while the pool is in use. */
  ghost predicate SameFrame(a: Image, b: Image) {
    && a.hdr.signed == b.hdr.signed && a.hdr.version == b.hdr.version && a.hdr.size == b.hdr.size
    && a.hdr.owner == b.hdr.owner && |a.hdr.note| == |b.hdr.note| && |a.user| == |b.user|
  }

  ghost predicate Inv(s: State, mapped: nat) {
    (s.ended ==> s.closing == s.completed) &&
    match s.phase
    case Closed => ValidHeader(s.disk.hdr, mapped) ==> s.closing == Some(s.disk.Data())
    case InUse => SameFrame(s.mem, s.disk) && Dirty(s.mem.hdr) && Dirty(s.disk.hdr)
    case Synced => s.disk == s.mem && Dirty(s.mem.hdr)
    case Cleared => SameFrame(s.mem, s.disk) && s.disk.Data() == s.mem.Data() && s.closing == Some(s.mem.Data())
  }

  lemma MixedSame(a: seq<Byte>, c: seq<Byte>)
    requires MixedBytes(a, a, c)
    ensures c == a
  {
  }

  lemma StepKeeps(s: State, s': State, mapped: nat, noteLen: nat)
    requires Inv(s, mapped) && Step(s, s', mapped, noteLen)
    ensures Inv(s', mapped)
  {
    if s.phase == Synced || s.phase == Cleared {
      if Mixed(s.disk, s.mem, s'.disk) {
        MixedSame(s.disk.user, s'.disk.user);
        MixedSame(s.disk.hdr.note, s'.disk.hdr.note);
      }
    }
  }

  ghost predicate IsRun(run: seq<State>, mapped: nat, noteLen: nat) {
    && |run| > 0 && run[0].phase == Closed && !ValidHeader(run[0].disk.hdr, mapped)
    && run[0].closing == run[0].completed == None && run[0].ended
    && forall i :: 0 <= i < |run| - 1 ==> Step(run[i], run[i + 1], mapped, noteLen)
  }

  lemma {:induction false} RunKeeps(run: seq<State>, mapped: nat, noteLen: nat, i: nat)
    requires IsRun(run, mapped, noteLen) && i < |run|
    ensures Inv(run[i], mapped)
  {
    if i > 0 {
      RunKeeps(run, mapped, noteLen, i - 1);
      assert Step(run[i - 1], run[i], mapped, noteLen);
      StepKeeps(run[i - 1], run[i], mapped, noteLen);
    }
  }

  /** A crash before the mark is cleared is noticed by the next open. */
  lemma CrashIsNoticed(run: seq<State>, mapped: nat, noteLen: nat, i: nat)
    requires IsRun(run, mapped, noteLen) && i + 1 < |run| && Crash(run[i], run[i + 1]) && run[i].phase != Cleared
    ensures !ValidHeader(run[i + 1].disk.hdr, mapped)
  {
    RunKeeps(run, mapped, noteLen, i);
  }

  /** A close that is not interrupted is what the three steps of a run come to. */
  lemma CloseIsThreeSteps(s: State, s1: State, s2: State, s3: State)
    requires SyncStep(s, s1) && ClearStep(s1, s2) && EndStep(s2, s3)
    ensures s3.disk == s3.mem == s.mem.(hdr := ClearDirty(s.mem.hdr))
    ensures s3.phase == Closed && s3.completed == Some(s.mem.Data())
  {
  }

  /**
   * Over every run with crashes: an open that does not find the pool fresh finds exactly what the
   * user had stored when a close last cleared the mark. That is the last completed close, if that
   * close was not cut off; if it was, it is the last completed one only if it stored the same.
   */
  lemma NotFreshIsClean(run: seq<State>, mapped: nat, noteLen: nat, i: nat, owner: string)
    requires IsRun(run, mapped, noteLen) && i + 1 < |run| && OpenStep(run[i], run[i + 1], owner, mapped, noteLen)
    requires ValidHeader(run[i].disk.hdr, mapped)
    ensures run[i].closing == Some(run[i + 1].mem.Data())
    ensures run[i].ended ==> run[i].completed == Some(run[i + 1].mem.Data())
    ensures run[i].completed == Some(run[i + 1].mem.Data()) <==> run[i].completed == run[i].closing
  {
    RunKeeps(run, mapped, noteLen, i);
  }

  /** The states of a run in which a close is cut off after its cleared mark has reached storage. */
  function CutOff(k: nat): State {
    var blank := Image(Header(false, 0, 0, 0, "", []), [7]);
    var dirty := Image(Header(true, VERSION, 1, 1, "", []), [7]);
    var clear := Image(Header(true, VERSION, 1, 0, "", []), [7]);
    match k
    case 0 => State(Closed, blank, blank, None, None, true)
    case 1 => State(InUse, dirty, dirty, None, None, true)
    case 2 => State(Synced, dirty, dirty, None, None, true)
    case 3 => State(Cleared, clear, dirty, Some(([7], [])), None, false)
    case 4 => State(Closed, clear, clear, Some(([7], [])), None, false)
    case _ => State(InUse, dirty, dirty, Some(([7], [])), None, false)
  }

  lemma CutOffSteps(k: nat)
    requires k < 5
    ensures Step(CutOff(k), CutOff(k + 1), 1, 0)
    ensures k == 4 ==> OpenStep(CutOff(k), CutOff(k + 1), "", 1, 0)
  {
    var s, s' := CutOff(k), CutOff(k + 1);
    assert seq<Byte>(0, _ => 0) == [];
    if k == 0 || k == 4 {
      assert OpenStep(s, s', "", 1, 0);
    }
  }

  /** There is such a run: no close was completed in it, and yet an open does not find the pool fresh. */
  lemma CutOffClose() returns (run: seq<State>)
    ensures IsRun(run, 1, 0) && |run| == 6 && OpenStep(run[4], run[5], "", 1, 0)
    ensures ValidHeader(run[4].disk.hdr, 1) && run[4].completed == None && run[5].mem.user == [7]
  {
    hide Step, OpenStep;
    run := [CutOff(0), CutOff(1), CutOff(2), CutOff(3), CutOff(4), CutOff(5)];
    CutOffSteps(4);
    forall i | 0 <= i < |run| - 1 ensures Step(run[i], run[i + 1], 1, 0) {
      CutOffSteps(i);
    }
  }
}
