/** The host-memory buffer pool (`SoftBufferAllocMgr`) together with the two
    defaults every buffer allocator inherits (`clearBuffer`, `clearAllBuffers`). */
module SoftPool {
  import opened Types
  import opened Budget

  /** The buffers are pairwise distinct memory regions. */
  ghost predicate Distinct(bufs: seq<array<bv8>>)
  {
    forall j, k :: 0 <= j < k < |bufs| ==> bufs[j] != bufs[k]
  }

  /** Whether the `failAt`-th `new char[]` of an allocation of `nbBuffers`
      buffers throws, `failAt` being the index of the first acquisition that
      runs out of memory, if any. */
  predicate FailsWithin(failAt: Option<nat>, nbBuffers: int)
  {
    failAt.Some? && failAt.value < nbBuffers
  }

  /** How `allocBuffers` ends once it has released the old buffers: the budget
      query's exception, a rejected count, an acquisition that ran out of
      memory, or success. */
  function AllocOutcome(nbBuffers: int, fd: FrameDim, sys: SysInfo, failAt: Option<nat>): Outcome
    requires Plausible(sys)
  {
    match MaxNbBuffers(fd, sys)
    case Err(e) => Fail(e)
    case Ok(max) =>
      if nbBuffers < 1 || nbBuffers > max then Fail(InvalidValue)
      else if FailsWithin(failAt, nbBuffers) then Fail(AllocFailed)
      else Pass
  }

  /** What an allocation's outcome means: a success holds at least one
      buffer and all of them fit in three quarters of RAM; `Error` comes
      exactly from a failed or oversized memory query; a count is refused
      exactly when it lies outside `[1, getMaxNbBuffers]`; running out of
      memory needs a failing acquisition among the first `nbBuffers`. */
  lemma AllocOutcomeMeaning(nbBuffers: int, fd: FrameDim, sys: SysInfo, failAt: Option<nat>)
    requires Plausible(sys) && fd.memSize > 0
    ensures AllocOutcome(nbBuffers, fd, sys, failAt) == Pass ==>
      sys.SysInfo? && nbBuffers >= 1 && 4 * (nbBuffers * fd.memSize) <= 3 * TotalBytes(sys)
    ensures AllocOutcome(nbBuffers, fd, sys, failAt) == Fail(Error) <==>
      sys.SysInfoFailed? || TotalBytes(sys) >= (INT_MAX + 1) * fd.memSize
    ensures AllocOutcome(nbBuffers, fd, sys, failAt) == Fail(InvalidValue) <==>
      MaxNbBuffers(fd, sys).Ok? && !(1 <= nbBuffers <= MaxNbBuffers(fd, sys).value)
    ensures AllocOutcome(nbBuffers, fd, sys, failAt) == Fail(AllocFailed) ==>
      FailsWithin(failAt, nbBuffers)
  {
    var m := MaxNbBuffers(fd, sys);
    if m.Ok? && 1 <= nbBuffers <= m.value {
      MulMonotone(nbBuffers, m.value, fd.memSize);
    }
  }

  /** The pool as its accessors report it: buffer count and geometry. */
  datatype PoolState = PoolState(nbBuffers: nat, frameDim: FrameDim)

  /** What `releaseBuffers` leaves: no buffers and the default geometry. */
  const Released: PoolState := PoolState(0, DefaultFrameDim)

  /** Geometry and count change together: the pool is released, or holds at
      least one buffer of a positive size. */
  predicate WellFormed(p: PoolState)
  {
    p == Released || (p.nbBuffers >= 1 && p.frameDim.memSize > 0)
  }

  /** Whether a request for `nbBuffers` buffers of geometry `fd` finds that
      allocation already in place. */
  predicate Reuses(p: PoolState, nbBuffers: int, fd: FrameDim)
  {
    fd == p.frameDim && nbBuffers == p.nbBuffers
  }

  /** `allocBuffers` on the pool's state: the new state and how the call ends. */
  function AllocSpec(p: PoolState, nbBuffers: int, fd: FrameDim, sys: SysInfo, failAt: Option<nat>)
    : (PoolState, Outcome)
    requires Plausible(sys)
  {
    if fd.memSize <= 0 then (p, Fail(InvalidValue))
    else if Reuses(p, nbBuffers, fd) then (p, Pass)
    else match AllocOutcome(nbBuffers, fd, sys, failAt)
      case Pass => (PoolState(nbBuffers, fd), Pass)
      case Fail(e) => (Released, Fail(e))
  }

  /** All or nothing: a call that returns holds exactly the buffers asked
      for; one that throws has either refused the geometry without touching
      anything, or left the pool released. */
  lemma AllocAllOrNothing(p: PoolState, nbBuffers: int, fd: FrameDim, sys: SysInfo, failAt: Option<nat>)
    requires WellFormed(p) && Plausible(sys)
    ensures var (q, r) := AllocSpec(p, nbBuffers, fd, sys, failAt);
      (r == Pass ==> q == PoolState(nbBuffers, fd) && nbBuffers >= 1) &&
      (r.Fail? && fd.memSize <= 0 ==> q == p && r.error == InvalidValue) &&
      (r.Fail? && fd.memSize > 0 ==> q == Released)
  {
    var (q, r) := AllocSpec(p, nbBuffers, fd, sys, failAt);
    if r == Pass && !Reuses(p, nbBuffers, fd) {
      AllocOutcomeMeaning(nbBuffers, fd, sys, failAt);
    }
  }

  /** Asking again for the allocation just made is a no-op that succeeds,
      whatever the memory query reports this time (even a failure) and
      whatever the acquisitions would do: the reuse check comes first. */
  lemma AllocIdempotent(p: PoolState, nbBuffers: int, fd: FrameDim, sys: SysInfo,
                        failAt: Option<nat>, sysAgain: SysInfo, failAgain: Option<nat>)
    requires WellFormed(p) && Plausible(sys) && Plausible(sysAgain)
    requires AllocSpec(p, nbBuffers, fd, sys, failAt).1 == Pass
    ensures var q := AllocSpec(p, nbBuffers, fd, sys, failAt).0;
      AllocSpec(q, nbBuffers, fd, sysAgain, failAgain) == (q, Pass)
  {
    AllocAllOrNothing(p, nbBuffers, fd, sys, failAt);
  }

  /** The operations a client applies to the pool; the memory query and the
      failing acquisition are part of each allocation request. */
  datatype PoolOp =
    | AllocOp(nbBuffers: int, fd: FrameDim, sys: SysInfo, failAt: Option<nat>)
    | ReleaseOp
    | ClearAllOp

  predicate PlausibleOps(ops: seq<PoolOp>)
  {
    forall i :: 0 <= i < |ops| ==> ops[i].AllocOp? ==> Plausible(ops[i].sys)
  }

  function PoolStep(p: PoolState, op: PoolOp): PoolState
    requires op.AllocOp? ==> Plausible(op.sys)
  {
    match op
    case AllocOp(nb, fd, sys, failAt) => AllocSpec(p, nb, fd, sys, failAt).0
    case ReleaseOp => Released
    case ClearAllOp => p
  }

  function PoolRun(p: PoolState, ops: seq<PoolOp>): PoolState
    requires PlausibleOps(ops)
    decreases |ops|
  {
    if ops == [] then p else PoolRun(PoolStep(p, ops[0]), ops[1..])
  }

  /** Every state a pool reaches from a well-formed one, whatever the
      requests and however memory behaves, is well-formed: there is no
      partial resize and no half-built pool. */
  lemma {:induction false} PoolRunWellFormed(p: PoolState, ops: seq<PoolOp>)
    requires WellFormed(p) && PlausibleOps(ops)
    ensures WellFormed(PoolRun(p, ops))
    decreases |ops|
  {
    if ops != [] {
      if ops[0].AllocOp? {
        var op := ops[0];
        AllocAllOrNothing(p, op.nbBuffers, op.fd, op.sys, op.failAt);
      }
      assert PlausibleOps(ops[1..]) by {
        forall i | 0 <= i < |ops[1..]| ensures ops[1..][i].AllocOp? ==> Plausible(ops[1..][i].sys) {
          assert ops[1..][i] == ops[i + 1];
        }
      }
      PoolRunWellFormed(PoolStep(p, ops[0]), ops[1..]);
    }
  }

  class SoftBufferAllocMgr {
    var bufferList: seq<array<bv8>>
    var frameDim: FrameDim

    /** The pool is empty with the default geometry, or holds at least one
        buffer, each its own region of exactly one frame's byte size. */
    ghost predicate Valid()
      reads this
      ensures Valid() ==> WellFormed(State())
    {
      Distinct(bufferList) &&
      (Empty() ||
       (|bufferList| >= 1 && frameDim.memSize > 0 &&
        forall k :: 0 <= k < |bufferList| ==> bufferList[k].Length == frameDim.memSize))
    }

    /** The state `releaseBuffers` leaves: no buffers, default geometry. */
    ghost predicate Empty()
      reads this
    {
      bufferList == [] && frameDim == DefaultFrameDim
    }

    /** The state the accessors report. */
    function State(): PoolState
      reads this
    {
      PoolState(|bufferList|, frameDim)
    }

    /** The memory regions the pool owns. */
    ghost function Buffers(): set<array<bv8>>
      reads this
    {
      set k | 0 <= k < |bufferList| :: bufferList[k]
    }

    constructor ()
      ensures Valid() && Empty()
    {
      bufferList := [];
      frameDim := DefaultFrameDim;
    }

    function GetFrameDim(): (fd: FrameDim)
      reads this
      requires Valid()
      ensures fd.memSize > 0 <==> |bufferList| > 0
      ensures fd == DefaultFrameDim <==> |bufferList| == 0
    {
      frameDim
    }

    function GetNbBuffers(): (n: nat)
      reads this
      requires Valid()
      ensures n == 0 <==> Empty()
    {
      |bufferList|
    }

    /** The buffer of index `bufferNb`; the index is not checked. */
    function GetBufferPtr(bufferNb: int): (buf: array<bv8>)
      reads this
      requires Valid() && 0 <= bufferNb < |bufferList|
      ensures buf in Buffers() && buf.Length == frameDim.memSize
    {
      bufferList[bufferNb]
    }

    /** Frees every buffer and resets the geometry; from any state, so also
        from the half-built state a failed allocation leaves. */
    method ReleaseBuffers()
      modifies this
      ensures Valid() && Empty() && State() == Released
    {
      bufferList := [];
      frameDim := DefaultFrameDim;
    }

    /** Allocates `nbBuffers` buffers of `fd.memSize` bytes, all or nothing.
        `sys` is what the memory query reports, `failAt` the first acquisition
        that runs out of memory, if any. */
    method AllocBuffers(nbBuffers: int, fd: FrameDim, sys: SysInfo, failAt: Option<nat>)
      returns (r: Outcome)
      requires Valid() && Plausible(sys)
      modifies this
      ensures Valid()
      ensures (State(), r) == AllocSpec(old(State()), nbBuffers, fd, sys, failAt)
      // a refused geometry or the allocation already in place keeps the very same buffers
      ensures fd.memSize <= 0 || Reuses(old(State()), nbBuffers, fd) ==> bufferList == old(bufferList)
      // otherwise a success holds new buffers only
      ensures fd.memSize > 0 && !Reuses(old(State()), nbBuffers, fd) ==>
        forall k :: 0 <= k < |bufferList| ==> fresh(bufferList[k])
    {
      var frameSize := fd.memSize;
      if frameSize <= 0 {
        return Fail(InvalidValue);
      }
      if fd == frameDim && nbBuffers == GetNbBuffers() {
        return Pass;
      }
      ReleaseBuffers();
      var maxBuffers := MaxNbBuffers(fd, sys);
      if maxBuffers.Err? {
        return Fail(maxBuffers.error);
      }
      if nbBuffers < 1 || nbBuffers > maxBuffers.value {
        return Fail(InvalidValue);
      }
      var i := 0;
      while i < nbBuffers
        invariant 0 <= i <= nbBuffers
        invariant |bufferList| == i && frameDim == DefaultFrameDim
        invariant forall k :: 0 <= k < i ==> bufferList[k].Length == frameSize && fresh(bufferList[k])
        invariant Distinct(bufferList)
        invariant failAt.Some? ==> i <= failAt.value
      {
        if failAt == Some(i) {
          ReleaseBuffers();
          return Fail(AllocFailed);
        }
        var buf := new bv8[frameSize];
        bufferList := bufferList + [buf];
        i := i + 1;
      }
      frameDim := fd;
      r := Pass;
    }

    /** `clearBuffer`: zeroes one buffer, through the accessors only. */
    method ClearBuffer(bufferNb: int)
      requires Valid() && 0 <= bufferNb < |bufferList|
      modifies bufferList[bufferNb]
      ensures forall k :: 0 <= k < bufferList[bufferNb].Length ==> bufferList[bufferNb][k] == 0
    {
      var ptr := GetBufferPtr(bufferNb);
      var size := GetFrameDim().memSize;
      forall k | 0 <= k < size {
        ptr[k] := 0;
      }
    }

    /** `clearAllBuffers`: zeroes every buffer; the pool keeps its buffers and
        geometry. */
    method ClearAllBuffers()
      requires Valid()
      modifies Buffers()
      ensures bufferList == old(bufferList) && frameDim == old(frameDim)
      ensures forall j, k :: 0 <= j < |bufferList| && 0 <= k < bufferList[j].Length ==>
        bufferList[j][k] == 0
    {
      var i := 0;
      while i < GetNbBuffers()
        invariant 0 <= i <= |bufferList|
        invariant forall j, k :: 0 <= j < i && 0 <= k < bufferList[j].Length ==>
          bufferList[j][k] == 0
      {
        ClearBuffer(i);
        i := i + 1;
      }
    }
  }
}
