/** The memory budget of the host-memory pool: how many frames of a given
    size may be allocated, from the total RAM the system reports. */
module Budget {
  import opened Types

  const INT_MAX: int := 0x7fff_ffff
  const LLONG_MAX: int := 0x7fff_ffff_ffff_ffff

  /** What the `sysinfo` system call yields: a failure, or the total RAM
      counted in units of `memUnit` bytes. */
  datatype SysInfo = SysInfoFailed | SysInfo(totalram: nat, memUnit: nat)

  /** What the kernel guarantees of a successful answer: a positive unit, and
      a byte count that fits the `long long` it is multiplied into. */
  predicate Plausible(sys: SysInfo)
  {
    sys.SysInfo? ==> sys.memUnit >= 1 && sys.totalram * sys.memUnit <= LLONG_MAX
  }

  /** Total RAM in bytes. */
  function TotalBytes(sys: SysInfo): nat
    requires sys.SysInfo?
  {
    sys.totalram * sys.memUnit
  }

  /** The unit `getSystemMem` counts in: the caller's, or the system's when the
      caller passes 0. */
  function EffectiveUnit(memUnit: int, sys: SysInfo): int
    requires sys.SysInfo?
  {
    if memUnit == 0 then sys.memUnit else memUnit
  }

  /** The result of `getSystemMem`: the block count it returns and the unit
      it leaves in its by-reference argument. */
  datatype MemBlocks = MemBlocks(blocks: int, memUnit: int)

  /** `d` is the floor of `a / b`. */
  ghost predicate IsQuotient(d: int, a: int, b: int)
  {
    d * b <= a < (d + 1) * b
  }

  lemma DivIsQuotient(a: nat, b: int)
    requires b > 0
    ensures IsQuotient(a / b, a, b)
  {
    var q, m := a / b, a % b;
    assert a == q * b + m && 0 <= m < b;
    assert (q + 1) * b == q * b + b;
  }

  /** `getSystemMem(mem_unit)`: the total RAM counted in blocks of `mem_unit`
      bytes, or the exception it throws. */
  function SystemMem(memUnit: int, sys: SysInfo): (r: Result<MemBlocks>)
    requires Plausible(sys)
    ensures memUnit < 0 ==> r == Err(InvalidValue)
    ensures memUnit >= 0 && sys.SysInfoFailed? ==> r == Err(Error)
    ensures memUnit >= 0 && sys.SysInfo? ==>
      (r.Err? <==> TotalBytes(sys) >= (INT_MAX + 1) * EffectiveUnit(memUnit, sys)) &&
      (r.Err? ==> r.error == Error)
    ensures r.Ok? ==>
      sys.SysInfo? && r.value.memUnit == EffectiveUnit(memUnit, sys) &&
      0 <= r.value.blocks <= INT_MAX &&
      IsQuotient(r.value.blocks, TotalBytes(sys), r.value.memUnit)
  {
    if memUnit < 0 then Err(InvalidValue)
    else if sys.SysInfoFailed? then Err(Error)
    else
      var unit := EffectiveUnit(memUnit, sys);
      var blocks := TotalBytes(sys) / unit;
      DivIsQuotient(TotalBytes(sys), unit);
      assert blocks > INT_MAX <==> TotalBytes(sys) >= (INT_MAX + 1) * unit by {
        if blocks > INT_MAX {
          MulMonotone(INT_MAX + 1, blocks, unit);
        } else {
          MulMonotone(blocks + 1, INT_MAX + 1, unit);
        }
      }
      if blocks > INT_MAX then Err(Error)
      else Ok(MemBlocks(blocks, unit))
  }

  lemma MulMonotone(a: int, b: int, c: int)
    requires a <= b && c >= 0
    ensures a * c <= b * c
  {
    assert b * c - a * c == (b - a) * c;
  }

  /** Passing 0 for the unit counts the RAM in the system's own unit, so the
      block count is `totalram` itself. */
  lemma SystemMemDefaultUnit(sys: SysInfo)
    requires Plausible(sys) && sys.SysInfo?
    requires SystemMem(0, sys).Ok?
    ensures SystemMem(0, sys).value == MemBlocks(sys.totalram, sys.memUnit)
  {
    var b := SystemMem(0, sys).value.blocks;
    QuotientUnique(b, sys.totalram, TotalBytes(sys), sys.memUnit);
  }

  /** A quotient is unique. */
  lemma QuotientUnique(d1: int, d2: int, a: int, b: int)
    requires b > 0 && IsQuotient(d1, a, b) && IsQuotient(d2, a, b)
    ensures d1 == d2
  {
    if d1 < d2 {
      MulMonotone(d1 + 1, d2, b);
    } else if d2 < d1 {
      MulMonotone(d2 + 1, d1, b);
    }
  }

  /** `getMaxNbBuffers(frame_dim)`: three quarters of the number of frames
      the total RAM could hold, or the exception thrown instead. The budget
      fits three quarters of RAM and fits an `int`. */
  function MaxNbBuffers(fd: FrameDim, sys: SysInfo): (r: Result<int>)
    requires Plausible(sys)
    ensures fd.memSize <= 0 ==> r == Err(InvalidValue)
    ensures fd.memSize > 0 && sys.SysInfoFailed? ==> r == Err(Error)
    ensures fd.memSize > 0 && sys.SysInfo? ==>
      (r.Err? <==> TotalBytes(sys) >= (INT_MAX + 1) * fd.memSize) &&
      (r.Err? ==> r.error == Error)
    ensures r.Ok? ==>
      sys.SysInfo? && 0 <= r.value <= INT_MAX &&
      4 * (r.value * fd.memSize) <= 3 * TotalBytes(sys)
  {
    if fd.memSize <= 0 then Err(InvalidValue)
    else match SystemMem(fd.memSize, sys)
      case Err(e) => Err(e)
      case Ok(m) =>
        var n := m.blocks * 3 / 4;
        assert 4 * (n * fd.memSize) <= 3 * TotalBytes(sys) by {
          assert 4 * n <= 3 * m.blocks;
          MulMonotone(4 * n, 3 * m.blocks, fd.memSize);
          assert 4 * n * fd.memSize == 4 * (n * fd.memSize);
          assert 3 * m.blocks * fd.memSize == 3 * (m.blocks * fd.memSize);
        }
        Ok(n)
  }

  /** The budget is the source's formula: `(totalram * mem_unit) / frame_size * 3 / 4`
      in integer division. */
  lemma MaxNbBuffersFormula(fd: FrameDim, sys: SysInfo)
    requires Plausible(sys) && MaxNbBuffers(fd, sys).Ok?
    ensures fd.memSize > 0 && sys.SysInfo?
    ensures MaxNbBuffers(fd, sys).value == TotalBytes(sys) / fd.memSize * 3 / 4
  {
    var m := SystemMem(fd.memSize, sys).value;
    DivIsQuotient(TotalBytes(sys), fd.memSize);
    QuotientUnique(m.blocks, TotalBytes(sys) / fd.memSize, TotalBytes(sys), fd.memSize);
  }

  /** For fixed system memory, a larger frame never gets a larger budget, and
      a budget that could be computed for a frame size can be computed for
      any larger one. */
  lemma MaxNbBuffersMonotone(fd1: FrameDim, fd2: FrameDim, sys: SysInfo)
    requires Plausible(sys)
    requires 0 < fd1.memSize <= fd2.memSize
    requires MaxNbBuffers(fd1, sys).Ok?
    ensures MaxNbBuffers(fd2, sys).Ok?
    ensures MaxNbBuffers(fd2, sys).value <= MaxNbBuffers(fd1, sys).value
  {
    var t := TotalBytes(sys);
    MulMonotone(fd1.memSize, fd2.memSize, INT_MAX + 1);
    assert (INT_MAX + 1) * fd1.memSize <= (INT_MAX + 1) * fd2.memSize;
    var b1 := SystemMem(fd1.memSize, sys).value.blocks;
    var b2 := SystemMem(fd2.memSize, sys).value.blocks;
    // b2 * fd1 <= b2 * fd2 <= t < (b1 + 1) * fd1, so b2 < b1 + 1
    MulMonotone(fd1.memSize, fd2.memSize, b2);
    assert b2 * fd1.memSize < (b1 + 1) * fd1.memSize;
    if b2 > b1 {
      MulMonotone(b1 + 1, b2, fd1.memSize);
      assert false;
    }
  }
}
