# Frame buffer managers of the hardware layer, in Dafny

This project models the buffer-pool core of the hardware layer of an image
acquisition library (`hardware/src/HwBufferMgr.cpp`):

- the two defaults every buffer allocator has, `clearBuffer` and
  `clearAllBuffers`, which zero buffers through the allocator's accessors;
- `SoftBufferAllocMgr`, the host-memory pool: a list of equal-size buffers and a
  frame geometry (`FrameDim`), allocated all or nothing under a memory budget of
  three quarters of the system RAM;
- `StdBufferCbMgr`, which wraps a pool (its own or a borrowed one) and adds a
  timestamp list parallel to the buffers, an acquisition-start timestamp, a
  frame-callback latch, and the mapping of the unbounded acquisition frame
  counter onto the ring of buffers (`acq_frame_nb % nb_buffers`) when a frame
  is reported ready.

Files and modules:

- `types.dfy` (`Types`): exception kinds, results, `FrameDim` (a shape tag
  compared for equality plus its byte size), `Timestamp` (`Unset` or
  `Set(t)`), and the relative-time subtraction.
- `budget.dfy` (`Budget`): `getSystemMem` and `getMaxNbBuffers` as functions of
  what the `sysinfo` call reports, with the budget's bounds, formula and
  monotonicity.
- `ring.dfy` (`Ring`): the slot of a frame in the ring and its wrap-around laws.
- `soft_pool.dfy` (`SoftPool`): the pool's state as its accessors report it
  (`PoolState`: count and geometry), `allocBuffers` as a function of that state
  (`AllocSpec`), and class `SoftBufferAllocMgr`, whose methods are proved
  against it, with `ClearBuffer` and `ClearAllBuffers` written only against its
  accessors.
- `cb_mgr.dfy` (`BufferCb`): the manager's state in the same form (`CbState`,
  `CbAllocSpec`, `CbReleaseSpec`, `SetStartSpec`), what any sequence of client
  calls keeps true of it, class `StdBufferCbMgr` proved against it, the
  frame-ready event, and two client methods that run the manager through the
  ring and the re-allocation rules.

The state the source updates in place is kept in classes: the pool's buffer
list (`seq<array<bv8>>`, one array per `new char[]`) and geometry, and the
manager's timestamp list, start timestamp and callback latch. `Valid()` is each
class's invariant: the pool is either empty with the default geometry, or holds
at least one buffer, each a distinct array of exactly the geometry's byte size;
the manager's pool is valid and no entry of its timestamp list is set.

Points where the code is narrower than a general description of these managers
would suggest, and which the model follows:

- A non-positive frame size and a bad buffer count both throw `InvalidValue`
  (hardware/src/HwBufferMgr.cpp:80, :89); there are no separate geometry and
  count error kinds.
- The count is checked after the old buffers are released
  (hardware/src/HwBufferMgr.cpp:85-89), so a bad count, or a failing memory
  query, leaves the pool empty with the default geometry.
- `newFrameReady` does not write the timestamp list
  (hardware/src/HwBufferMgr.cpp:194-203): entries stay as the unset values
  pushed at allocation (hardware/src/HwBufferMgr.cpp:169), so
  `getBufferTimestamp` reports every buffer as unset.
- `getBufferPtr` and `getBufferTimestamp` do not check their index
  (hardware/src/HwBufferMgr.cpp:124, :222): the model makes the valid range a
  precondition instead of raising an out-of-range error.
- `StdBufferCbMgr::allocBuffers` compares the request with the pool's state
  only (hardware/src/HwBufferMgr.cpp:159-160). A manager built over a borrowed
  pool that already holds that allocation returns at once without sizing its
  timestamp list, so the list is parallel to the buffers after that call only if
  it was before; every other successful call, and every failed call past the
  frame-size check, leaves it parallel.

## Model

| member | source | states |
|---|---|---|
| `Budget.SystemMem` | hardware/src/HwBufferMgr.cpp:43-63 | a negative unit throws `InvalidValue`; a failed `sysinfo` throws `Error`; otherwise the unit is the caller's, or the system's when the caller passes 0, and the result is the floor of total RAM over that unit, thrown as `Error` exactly when it would exceed `INT_MAX` |
| `Budget.SystemMemDefaultUnit` | hardware/src/HwBufferMgr.cpp:52-58 | with unit 0 the block count is `totalram` itself, counted in the system's unit |
| `Budget.MaxNbBuffers` | hardware/src/HwBufferMgr.cpp:65-73 | a non-positive frame size throws `InvalidValue`; a failed query or more than `INT_MAX` frames of RAM throws `Error`; a budget lies in `[0, INT_MAX]` and that many frames fit in three quarters of RAM |
| `Budget.MaxNbBuffersFormula` | hardware/src/HwBufferMgr.cpp:71-72 | a budget equals `(totalram * mem_unit) / frame_size * 3 / 4` in integer division |
| `Budget.MaxNbBuffersMonotone` | hardware/src/HwBufferMgr.cpp:65-73 | for fixed RAM a larger frame size never has a larger budget, and never fails where a smaller one succeeds |
| `Ring.Slot` | hardware/src/HwBufferMgr.cpp:199 | the slot of a non-negative frame number lies in `[0, nbBuffers)`, and the first `nbBuffers` frames take the slots of their own number |
| `Ring.SlotWrapsAfterOneTurn` | hardware/src/HwBufferMgr.cpp:199 | frames `f` and `f + nbBuffers` share a buffer |
| `Ring.SlotPeriodic` | hardware/src/HwBufferMgr.cpp:199 | any number of full turns of the ring leaves the slot unchanged |
| `Ring.SlotDuringTurn` | hardware/src/HwBufferMgr.cpp:199 | frame `turns * nbBuffers + k` goes to buffer `k`: frames `n .. 2n-1` fill buffers `0 .. n-1` |
| `Ring.SlotNext` | hardware/src/HwBufferMgr.cpp:199 | the next frame goes to the next buffer, the last buffer being followed by the first |
| `Ring.SlotWindowIsOneTurn` | hardware/src/HwBufferMgr.cpp:199 | any `nbBuffers` consecutive frames use every buffer exactly once |
| `Types.RelativeTimestamp` | hardware/src/HwBufferMgr.cpp:222-225 | an unset timestamp is returned as it is; a set one is returned relative to a set baseline (adding the baseline gives it back) |
| `SoftPool.AllocOutcomeMeaning` | hardware/src/HwBufferMgr.cpp:85-98 | after the release, allocation succeeds only with at least one buffer, all fitting in three quarters of RAM; `Error` comes exactly from a failed or oversized memory query; `InvalidValue` exactly from a count outside `[1, getMaxNbBuffers]`; running out of memory needs a failing acquisition among the first `nb_buffers` |
| `SoftPool.AllocAllOrNothing` | hardware/src/HwBufferMgr.cpp:75-110 | a call that returns leaves exactly the `nb_buffers` buffers and geometry asked for; one that throws has either refused the geometry with nothing changed, or left the pool released |
| `SoftPool.AllocIdempotent` | hardware/src/HwBufferMgr.cpp:82-83 | asking again for the allocation just made succeeds and changes nothing, whatever the second call's memory query reports (even a failure) and whatever its acquisitions would do |
| `SoftPool.PoolRunWellFormed` | hardware/src/HwBufferMgr.cpp:75-110 | any sequence of allocations, releases and clears, under any memory behaviour, keeps count and geometry together: released, or at least one buffer of positive size |
| `SoftPool.SoftBufferAllocMgr.constructor` | hardware/src/HwBufferMgr.cpp:34-36 | a new pool is empty with the default geometry |
| `SoftPool.SoftBufferAllocMgr.GetFrameDim` | hardware/src/HwBufferMgr.cpp:112-115 | the geometry has a positive size exactly when buffers are held, and is the default exactly when none are |
| `SoftPool.SoftBufferAllocMgr.GetNbBuffers` | hardware/src/HwBufferMgr.cpp:117-120 | the count is 0 exactly in the released state |
| `SoftPool.SoftBufferAllocMgr.GetBufferPtr` | hardware/src/HwBufferMgr.cpp:122-125 | for an index in range, returns one of the pool's buffers, of one frame's byte size |
| `SoftPool.SoftBufferAllocMgr.ReleaseBuffers` | hardware/src/HwBufferMgr.cpp:103-110 | from any state, even a half-built one, leaves no buffers and the default geometry; so a second release changes nothing |
| `SoftPool.SoftBufferAllocMgr.AllocBuffers` | hardware/src/HwBufferMgr.cpp:75-101 | count, geometry and outcome are those of `AllocSpec`; the pool stays valid, so buffers are distinct and of the frame size; a refused geometry or the allocation already in place keeps the very same buffers, and any other call leaves only freshly allocated ones |
| `SoftPool.SoftBufferAllocMgr.ClearBuffer` | hardware/src/HwBufferMgr.cpp:16-21 | every byte of the chosen buffer is zero, and only that buffer is written |
| `SoftPool.SoftBufferAllocMgr.ClearAllBuffers` | hardware/src/HwBufferMgr.cpp:23-27 | every byte of every buffer is zero; the buffer list and geometry are unchanged |
| `BufferCb.CbAllocAllOrNothing` | hardware/src/HwBufferMgr.cpp:152-174 | a call that returns leaves the buffers asked for and, unless it found them in place, one timestamp per buffer; one that throws past the geometry check leaves pool and timestamp list both empty; start timestamp and latch are never touched |
| `BufferCb.CbRunKeepsParallel` | hardware/src/HwBufferMgr.cpp:152-203 | once the timestamp list is as long as the buffer list, every sequence of allocations, releases, start-timestamp and latch changes and frame reports keeps it so, and keeps the pool well-formed |
| `BufferCb.ReleaseRestoresParallel` | hardware/src/HwBufferMgr.cpp:176-180 | after any release the timestamp list is parallel to the buffers for good, even for a manager whose list started out of step |
| `BufferCb.StdBufferCbMgr.constructor` | hardware/src/HwBufferMgr.cpp:132-139 | with no pool given, a fresh empty pool is created and owned; otherwise the given pool is borrowed; the latch is off, the timestamp list empty and the start timestamp unset |
| `BufferCb.StdBufferCbMgr.GetMaxNbBuffers` | hardware/src/HwBufferMgr.cpp:147-150 | the pool's budget |
| `BufferCb.StdBufferCbMgr.GetFrameDim` | hardware/src/HwBufferMgr.cpp:205-208 | the pool's geometry, of positive size exactly when the pool holds buffers |
| `BufferCb.StdBufferCbMgr.GetNbBuffers` | hardware/src/HwBufferMgr.cpp:210-213 | the pool's count: 0 exactly when the pool is released (no buffers, default geometry), and otherwise positive with a frame size that is positive too |
| `BufferCb.StdBufferCbMgr.GetBufferPtr` | hardware/src/HwBufferMgr.cpp:215-218 | the pool's buffer of that index, of one frame's byte size |
| `BufferCb.StdBufferCbMgr.GetBufferTimestamp` | hardware/src/HwBufferMgr.cpp:220-226 | an unset entry is returned unset; a set entry is returned relative to a set start timestamp |
| `BufferCb.StdBufferCbMgr.BufferTimestampAlwaysUnset` | hardware/src/HwBufferMgr.cpp:194-203 | as nothing ever records a capture time, every buffer's timestamp reads as unset |
| `BufferCb.StdBufferCbMgr.ReleaseBuffers` | hardware/src/HwBufferMgr.cpp:176-180 | the pool is released and the timestamp list emptied, as `CbReleaseSpec`; start timestamp and latch are kept |
| `BufferCb.StdBufferCbMgr.AllocBuffers` | hardware/src/HwBufferMgr.cpp:152-174 | the new state and outcome are those of `CbAllocSpec`, whose meaning `CbAllocAllOrNothing` states; every timestamp pushed is unset; a refused geometry or an allocation already in the pool changes nothing at all |
| `BufferCb.StdBufferCbMgr.SetStartTimestamp` | hardware/src/HwBufferMgr.cpp:182-187 | an unset timestamp throws `InvalidValue` and keeps the old baseline; a set one becomes the baseline; nothing else changes |
| `BufferCb.StdBufferCbMgr.SetFrameCallbackActive` | hardware/src/HwBufferMgr.cpp:189-192 | the latch takes the given value; nothing else changes |
| `BufferCb.StdBufferCbMgr.NewFrameReady` | hardware/src/HwBufferMgr.cpp:194-203 | with the latch off, returns false and builds no event; otherwise returns the dispatcher's answer and the event `(acq_frame_nb, buffer of slot acq_frame_nb % nbBuffers, geometry, now)`; no state changes, the timestamp list included |
| `BufferCb.FourBufferScenario` | hardware/src/HwBufferMgr.cpp:152-203 | with four 1024-byte buffers, frame 4 is reported in frame 0's buffer, frame 1 in a different one, and buffer 2's timestamp stays unset |
| `BufferCb.ReallocationScenario` | hardware/src/HwBufferMgr.cpp:152-174 | asking again for the allocation in place keeps the same buffers whatever memory would do; a count of 0 and a zero-byte geometry both throw `InvalidValue` |

## Left out

- The `sysinfo` system call (hardware/src/HwBufferMgr.cpp:48-50) is a parameter: either a failure or `(totalram, mem_unit)`. The model assumes what the kernel guarantees of a success: a unit of at least 1 byte and a byte total that fits a `long long`, so neither the division by zero nor the `long long` overflow the code would otherwise risk is modelled.
- `new char[]`, `delete[]` and `memset` are not modelled as heap operations: a buffer is a Dafny array, running out of memory is the injected index `failAt` of the first failing `new char[]`, and freeing a buffer is dropping it from the list. The contents of a fresh buffer (uninitialised in the source) are not specified.
- SoftPool.SoftBufferAllocMgr.AllocBuffers: a `bad_alloc` from `m_buffer_list.reserve` is not modelled; it would take the same rollback path as a failing `new char[]`.
- BufferCb.StdBufferCbMgr.AllocBuffers: a `bad_alloc` while growing the timestamp list is not modelled (the list always grows); the source would release everything as it does for a pool failure.
- `BufferAllocMgr` is an abstract class with other backends; here the pool a manager borrows is always a `SoftBufferAllocMgr`, so backends with other allocation rules are not modelled.
- Destructors and deletion (hardware/src/HwBufferMgr.cpp:12-14, :38-41, :141-145): ownership is recorded in `intAllocMgr`; freeing the owned pool is not modelled.
- `HwFrameCallbackGen::newFrameReady` (hardware/src/HwBufferMgr.cpp:202) is a call into the dispatcher: its boolean answer is an input to `NewFrameReady`, which returns it with the event it would be given.
- `Timestamp::now()` is an input to `NewFrameReady`; timestamps are integers rather than floating-point seconds. `Timestamp`'s own subtraction is not part of this model: subtracting an unset start timestamp leaves a set timestamp as it is.
- BufferCb.StdBufferCbMgr.NewFrameReady: requires a non-negative frame number when callbacks are on; a negative `int` would give a negative remainder in C++ and an out-of-range index, and the 32-bit wrap of the frame counter is not modelled. It also requires at least one buffer when callbacks are on: with none, the source's `acq_frame_nb % nb_buffers` (hardware/src/HwBufferMgr.cpp:199) divides by zero, which C++ leaves undefined.
- Budget.SystemMem: the by-reference unit is returned only on success; on the `INT_MAX` error path the source has already overwritten a 0 unit, which its one caller never observes.
- The latch, the timestamp list and the buffers are shared between the acquisition-control path and the capture path without synchronisation; concurrency is not modelled.
