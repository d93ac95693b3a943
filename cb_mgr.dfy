/** The frame-callback buffer manager (`StdBufferCbMgr`): a buffer pool, owned
    or borrowed, plus per-buffer timestamps, an acquisition-start baseline, a
    callback-active latch and the ring-buffer mapping of frame numbers. */
module BufferCb {
  import opened Types
  import opened Budget
  import opened Ring
  import opened SoftPool

  /** The frame-ready event handed to the callback dispatcher. */
  datatype FrameInfo = FrameInfo(acqFrameNb: int, buffer: array<bv8>, frameDim: FrameDim, ts: Timestamp)

  /** The manager as its accessors report it: the pool's state, the length
      of the timestamp list, the start timestamp and the callback latch. */
  datatype CbState = CbState(pool: PoolState, nbTimestamps: nat, startTs: Timestamp, fcbAct: bool)

  /** One timestamp per buffer. */
  predicate Parallel(s: CbState)
  {
    s.nbTimestamps == s.pool.nbBuffers
  }

  /** `releaseBuffers`: the pool is released and the timestamp list emptied. */
  function CbReleaseSpec(s: CbState): CbState
  {
    s.(pool := Released, nbTimestamps := 0)
  }

  /** `allocBuffers` on the manager's state: the new state and how the call
      ends. The request is compared with the pool's state only; past that,
      everything is released and the pool is asked for a fresh allocation. */
  function CbAllocSpec(s: CbState, nbBuffers: int, fd: FrameDim, sys: SysInfo, failAt: Option<nat>)
    : (CbState, Outcome)
    requires Plausible(sys)
  {
    if fd.memSize <= 0 then (s, Fail(InvalidValue))
    else if Reuses(s.pool, nbBuffers, fd) then (s, Pass)
    else
      var (p, r) := AllocSpec(Released, nbBuffers, fd, sys, failAt);
      if r == Pass then (s.(pool := p, nbTimestamps := p.nbBuffers), Pass)
      else (CbReleaseSpec(s), r)
  }

  /** `setStartTimestamp`: an unset timestamp is refused. */
  function SetStartSpec(s: CbState, ts: Timestamp): (CbState, Outcome)
  {
    if !ts.IsSet() then (s, Fail(InvalidValue)) else (s.(startTs := ts), Pass)
  }

  /** A successful allocation holds exactly the buffers asked for, and (unless
      it found them already in place) one timestamp per buffer; a failed one
      past the geometry check leaves pool and timestamp list both empty. The
      start timestamp and the latch are never touched. */
  lemma CbAllocAllOrNothing(s: CbState, nbBuffers: int, fd: FrameDim, sys: SysInfo, failAt: Option<nat>)
    requires WellFormed(s.pool) && Plausible(sys)
    ensures var (t, r) := CbAllocSpec(s, nbBuffers, fd, sys, failAt);
      t.startTs == s.startTs && t.fcbAct == s.fcbAct &&
      (r == Pass ==> t.pool == PoolState(nbBuffers, fd) && nbBuffers >= 1) &&
      (r == Pass && !Reuses(s.pool, nbBuffers, fd) ==> t.nbTimestamps == nbBuffers) &&
      (r.Fail? && fd.memSize <= 0 ==> t == s && r.error == InvalidValue) &&
      (r.Fail? && fd.memSize > 0 ==> t.pool == Released && t.nbTimestamps == 0)
  {
    if fd.memSize > 0 && !Reuses(s.pool, nbBuffers, fd) {
      AllocAllOrNothing(Released, nbBuffers, fd, sys, failAt);
    }
  }

  /** What a client can do to the manager. A frame-ready report changes no
      state, so it is a step like the others. */
  datatype CbOp =
    | CbAlloc(nbBuffers: int, fd: FrameDim, sys: SysInfo, failAt: Option<nat>)
    | CbRelease
    | SetStart(ts: Timestamp)
    | SetActive(active: bool)
    | FrameReady(acqFrameNb: int)

  predicate PlausibleCbOps(ops: seq<CbOp>)
  {
    forall i :: 0 <= i < |ops| ==> ops[i].CbAlloc? ==> Plausible(ops[i].sys)
  }

  function CbStep(s: CbState, op: CbOp): CbState
    requires op.CbAlloc? ==> Plausible(op.sys)
  {
    match op
    case CbAlloc(nb, fd, sys, failAt) => CbAllocSpec(s, nb, fd, sys, failAt).0
    case CbRelease => CbReleaseSpec(s)
    case SetStart(ts) => SetStartSpec(s, ts).0
    case SetActive(active) => s.(fcbAct := active)
    case FrameReady(_) => s
  }

  function CbRun(s: CbState, ops: seq<CbOp>): CbState
    requires PlausibleCbOps(ops)
    decreases |ops|
  {
    if ops == [] then s else CbRun(CbStep(s, ops[0]), ops[1..])
  }

  lemma PlausibleCbOpsTail(ops: seq<CbOp>)
    requires ops != [] && PlausibleCbOps(ops)
    ensures PlausibleCbOps(ops[1..])
  {
    forall i | 0 <= i < |ops[1..]| ensures ops[1..][i].CbAlloc? ==> Plausible(ops[1..][i].sys) {
      assert ops[1..][i] == ops[i + 1];
    }
  }

  /** Once the timestamp list is parallel to the buffers it stays so, and the
      pool stays well-formed, whatever a client does. */
  lemma {:induction false} CbRunKeepsParallel(s: CbState, ops: seq<CbOp>)
    requires WellFormed(s.pool) && Parallel(s) && PlausibleCbOps(ops)
    ensures WellFormed(CbRun(s, ops).pool) && Parallel(CbRun(s, ops))
    decreases |ops|
  {
    if ops != [] {
      if ops[0].CbAlloc? {
        var op := ops[0];
        CbAllocAllOrNothing(s, op.nbBuffers, op.fd, op.sys, op.failAt);
      }
      PlausibleCbOpsTail(ops);
      CbRunKeepsParallel(CbStep(s, ops[0]), ops[1..]);
    }
  }

  /** Running two sequences of operations is running the first, then the second. */
  lemma {:induction false} CbRunAppend(s: CbState, first: seq<CbOp>, second: seq<CbOp>)
    requires PlausibleCbOps(first) && PlausibleCbOps(second)
    ensures PlausibleCbOps(first + second)
    ensures CbRun(s, first + second) == CbRun(CbRun(s, first), second)
    decreases |first|
  {
    assert PlausibleCbOps(first + second) by {
      forall i | 0 <= i < |first + second|
        ensures (first + second)[i].CbAlloc? ==> Plausible((first + second)[i].sys)
      {
        if i >= |first| {
          assert (first + second)[i] == second[i - |first|];
        }
      }
    }
    if first == [] {
      assert first + second == second;
    } else {
      PlausibleCbOpsTail(first);
      assert (first + second)[0] == first[0];
      assert (first + second)[1..] == first[1..] + second;
      CbRunAppend(CbStep(s, first[0]), first[1..], second);
    }
  }

  /** A manager whose timestamp list is out of step with its pool (one built
      over a borrowed pool that was already allocated) is back in step for
      good after a release, whatever came before and comes after. */
  lemma ReleaseRestoresParallel(s: CbState, before: seq<CbOp>, after: seq<CbOp>)
    requires WellFormed(s.pool) && PlausibleCbOps(before) && PlausibleCbOps(after)
    ensures PlausibleCbOps(before + [CbRelease] + after)
    ensures Parallel(CbRun(s, before + [CbRelease] + after))
  {
    assert PlausibleCbOps([CbRelease]);
    CbRunAppend(s, before, [CbRelease]);
    CbRunAppend(s, before + [CbRelease], after);
    var released := CbRun(s, before + [CbRelease]);
    assert released == CbReleaseSpec(CbRun(s, before));
    CbRunKeepsParallel(released, after);
  }

  class StdBufferCbMgr {
    /** The pool, and whether this manager created (and so owns) it. */
    const allocMgr: SoftBufferAllocMgr
    const intAllocMgr: bool
    var tsList: seq<Timestamp>
    var startTs: Timestamp
    var fcbAct: bool

    /** The pool is consistent, and no timestamp in the list has ever been
        set: entries are only ever pushed unset, and nothing writes them. */
    ghost predicate Valid()
      reads this, allocMgr
    {
      allocMgr.Valid() && forall k :: 0 <= k < |tsList| ==> !tsList[k].IsSet()
    }

    /** The state the accessors report. */
    ghost function State(): CbState
      reads this, allocMgr
    {
      CbState(allocMgr.State(), |tsList|, startTs, fcbAct)
    }

    /** Borrows `allocMgr`, or creates and owns a fresh host-memory pool when
        none is given. */
    constructor (allocMgr: SoftBufferAllocMgr?)
      requires allocMgr != null ==> allocMgr.Valid()
      ensures Valid()
      ensures intAllocMgr <==> allocMgr == null
      ensures allocMgr != null ==> this.allocMgr == allocMgr
      ensures allocMgr == null ==> fresh(this.allocMgr) && this.allocMgr.Empty()
      ensures tsList == [] && startTs == Unset && !fcbAct
    {
      fcbAct := false;
      intAllocMgr := allocMgr == null;
      if allocMgr == null {
        this.allocMgr := new SoftBufferAllocMgr();
      } else {
        this.allocMgr := allocMgr;
      }
      tsList := [];
      startTs := Unset;
    }

    function GetMaxNbBuffers(fd: FrameDim, sys: SysInfo): (r: Result<int>)
      requires Plausible(sys)
      ensures r == MaxNbBuffers(fd, sys)
    {
      MaxNbBuffers(fd, sys)
    }

    function GetFrameDim(): (fd: FrameDim)
      reads this, allocMgr
      requires Valid()
      ensures fd.memSize > 0 <==> |allocMgr.bufferList| > 0
    {
      allocMgr.GetFrameDim()
    }

    function GetNbBuffers(): (n: nat)
      reads this, allocMgr
      requires Valid()
      ensures n == 0 <==> allocMgr.State() == Released
      ensures n > 0 ==> allocMgr.frameDim.memSize > 0
    {
      allocMgr.GetNbBuffers()
    }

    function GetBufferPtr(bufferNb: int): (buf: array<bv8>)
      reads this, allocMgr
      requires Valid() && 0 <= bufferNb < |allocMgr.bufferList|
      ensures buf == allocMgr.bufferList[bufferNb] && buf.Length == allocMgr.frameDim.memSize
    {
      allocMgr.GetBufferPtr(bufferNb)
    }

    /** The timestamp of buffer `bufferNb` relative to the start timestamp;
        the index is not checked against the list. */
    function GetBufferTimestamp(bufferNb: int): (ts: Timestamp)
      reads this
      requires 0 <= bufferNb < |tsList|
      ensures !tsList[bufferNb].IsSet() ==> ts == tsList[bufferNb]
      ensures tsList[bufferNb].IsSet() && startTs.IsSet() ==>
        ts.IsSet() && ts.t + startTs.t == tsList[bufferNb].t
    {
      RelativeTimestamp(tsList[bufferNb], startTs)
    }

    /** As the manager never records a capture time, every buffer reports an
        unset timestamp. */
    lemma BufferTimestampAlwaysUnset(bufferNb: int)
      requires Valid() && 0 <= bufferNb < |tsList|
      ensures !GetBufferTimestamp(bufferNb).IsSet()
    {
    }

    method ReleaseBuffers()
      modifies this, allocMgr
      ensures Valid() && allocMgr.Empty()
      ensures State() == CbReleaseSpec(old(State()))
    {
      allocMgr.ReleaseBuffers();
      tsList := [];
    }

    /** Allocates `nbBuffers` buffers through the pool and one unset timestamp
        per buffer, all or nothing. */
    method AllocBuffers(nbBuffers: int, fd: FrameDim, sys: SysInfo, failAt: Option<nat>)
      returns (r: Outcome)
      requires Valid() && Plausible(sys)
      modifies this, allocMgr
      ensures Valid()
      ensures (State(), r) == CbAllocSpec(old(State()), nbBuffers, fd, sys, failAt)
      // a refused geometry or the allocation already in place changes nothing
      ensures fd.memSize <= 0 || Reuses(old(State().pool), nbBuffers, fd) ==>
        unchanged(allocMgr) && tsList == old(tsList)
    {
      if fd.memSize <= 0 {
        return Fail(InvalidValue);
      }
      if fd == GetFrameDim() && nbBuffers == GetNbBuffers() {
        return Pass;
      }
      ReleaseBuffers();
      r := allocMgr.AllocBuffers(nbBuffers, fd, sys, failAt);
      if r.Fail? {
        ReleaseBuffers();
        return;
      }
      var i := 0;
      while i < nbBuffers
        modifies this`tsList
        invariant 0 <= i <= nbBuffers
        invariant |tsList| == i && forall k :: 0 <= k < i ==> tsList[k] == Unset
      {
        tsList := tsList + [Unset];
        i := i + 1;
      }
    }

    /** Sets the acquisition-start baseline; an unset timestamp is refused and
        leaves the baseline as it was. */
    method SetStartTimestamp(ts: Timestamp) returns (r: Outcome)
      modifies this`startTs
      ensures (State(), r) == SetStartSpec(old(State()), ts)
    {
      if !ts.IsSet() {
        return Fail(InvalidValue);
      }
      startTs := ts;
      r := Pass;
    }

    method SetFrameCallbackActive(cbActive: bool)
      modifies this`fcbAct
      ensures State() == old(State()).(fcbAct := cbActive)
    {
      fcbAct := cbActive;
    }

    /** Frame `acqFrameNb` has been captured. With callbacks off, nothing
        happens and false is returned. Otherwise the frame's ring slot is
        computed and the event for that buffer, stamped `now`, is built and
        handed to the dispatcher, whose answer `dispatched` is returned. The
        manager's state, the timestamp list included, is left as it was. */
    method NewFrameReady(acqFrameNb: int, now: Timestamp, dispatched: bool)
      returns (accepted: bool, event: Option<FrameInfo>)
      requires Valid()
      requires fcbAct ==> acqFrameNb >= 0 && |allocMgr.bufferList| > 0
      ensures !fcbAct ==> !accepted && event == None
      ensures fcbAct ==> (
        var slot := Slot(acqFrameNb, |allocMgr.bufferList|);
        accepted == dispatched &&
        event == Some(FrameInfo(acqFrameNb, allocMgr.bufferList[slot], allocMgr.frameDim, now)))
    {
      if !fcbAct {
        return false, None;
      }
      var bufferNb := Slot(acqFrameNb, GetNbBuffers());
      var frameInfo := FrameInfo(acqFrameNb, GetBufferPtr(bufferNb), GetFrameDim(), now);
      return dispatched, Some(frameInfo);
    }
  }

  /** A client of the manager: four buffers of 1024 bytes; frames 0, 1 and 4
      are reported. Frame 4 reuses frame 0's buffer, frame 1 has a buffer of
      its own, and buffer 2 still reports an unset timestamp. */
  method FourBufferScenario(sys: SysInfo, now: Timestamp)
    returns (e0: FrameInfo, e1: FrameInfo, e4: FrameInfo, ts2: Timestamp)
    requires Plausible(sys)
    requires MaxNbBuffers(FrameDim(1, 1024), sys).Ok? && MaxNbBuffers(FrameDim(1, 1024), sys).value >= 4
    ensures e0.acqFrameNb == 0 && e1.acqFrameNb == 1 && e4.acqFrameNb == 4
    ensures e4.buffer == e0.buffer && e1.buffer != e0.buffer
    ensures e0.buffer.Length == 1024 && e0.frameDim == FrameDim(1, 1024)
    ensures !ts2.IsSet()
  {
    var mgr := new StdBufferCbMgr(null);
    var r := mgr.AllocBuffers(4, FrameDim(1, 1024), sys, None);
    assert r == Pass;
    mgr.SetFrameCallbackActive(true);
    var ok, ev := mgr.NewFrameReady(0, now, true);
    e0 := ev.value;
    ok, ev := mgr.NewFrameReady(1, now, true);
    e1 := ev.value;
    ok, ev := mgr.NewFrameReady(4, now, true);
    e4 := ev.value;
    SlotWrapsAfterOneTurn(0, 4);
    ts2 := mgr.GetBufferTimestamp(2);
    mgr.BufferTimestampAlwaysUnset(2);
  }

  /** A client of the manager: asking twice for the same allocation keeps the
      buffers of the first, whatever the memory would have done; a count of 0
      and a zero-byte geometry are both refused with `InvalidValue`. */
  method ReallocationScenario(sys: SysInfo, failAt: Option<nat>)
    returns (same: bool, zeroCount: Outcome, zeroSize: Outcome)
    requires Plausible(sys)
    requires MaxNbBuffers(FrameDim(1, 1024), sys).Ok? && MaxNbBuffers(FrameDim(1, 1024), sys).value >= 4
    ensures same
    ensures zeroCount == Fail(InvalidValue) && zeroSize == Fail(InvalidValue)
  {
    var mgr := new StdBufferCbMgr(null);
    var r := mgr.AllocBuffers(4, FrameDim(1, 1024), sys, None);
    assert r == Pass;
    var first := mgr.GetBufferPtr(0);
    r := mgr.AllocBuffers(4, FrameDim(1, 1024), sys, failAt);
    same := r == Pass && mgr.GetBufferPtr(0) == first;
    zeroCount := mgr.AllocBuffers(0, FrameDim(1, 1024), sys, None);
    zeroSize := mgr.AllocBuffers(5, FrameDim(1, 0), sys, None);
  }
}
