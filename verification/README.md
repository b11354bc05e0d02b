# Profiling-region registry

A Dafny model of the profiling-region registry of vkd3d-proton
(`libs/vkd3d-common/profiling.c`). Instrumented code times named hot regions:
a call site registers its region once, caching the slot index it receives in a
caller-owned *latch*, and then reports work (a tick interval and an iteration
count) against that index. The counters live in a table of 1024 fixed-size
64-byte *counter blocks* in a shared file mapping. Each block holds a 64-bit
tick total, a 64-bit iteration total and a 48-byte name field.

The model has four files:

- `unsigned.dfy` (module `Unsigned`): the 32-bit and 64-bit unsigned types,
  and 64-bit addition and subtraction with their wrap-around written out.
- `cstring.dfy` (module `CString`): NUL-terminated byte strings, the C
  library's `strncpy` (the only library routine the registry's logic depends
  on), and reading a name back out of a fixed-width field.
- `profiling.dfy` (module `Profiling`): the block layout and its constants.
  The registry state is given as a value (`State`), and the two operations are
  functions over it (`Register`, `Notify`), whose contracts state what the C
  code does. The same state is also a class, `Registry`: its fields are
  `regionCount`, the process-wide counter, and `blocks`, the mapped table or
  `null`. `Latch` is a one-field class. The class's two methods update the
  table in place and are proved to follow `Register` and `Notify`; the
  constructor is proved to leave a table of `MAX_REGIONS` all-zero blocks
  with count 0.
- `runs.dfy` (module `Runs`): properties of whole runs of operations. Over
  any run of fewer than 2^32 - 1 registrations in all, no two call sites ever
  share a slot, and exhaustion is sticky. Fresh sites get consecutive slots. A disabled registry does nothing.
  Any number of updates adds up exactly, modulo 2^64. Updates and registrations
  commute.

The C code's sequential behaviour is modelled. Lock acquisition and release
are no-ops, and each atomic add is a plain modular addition.

The registration counter does not saturate. `profiling.c:97` increments it
on every fresh registration, including past 1024, and only the returned index
is forced to 0.

## Model

| member | source | states |
|---|---|---|
| `Unsigned.Add64` | libs/vkd3d-common/profiling.c:131-132 | the sum of two `uint64_t` values is their mathematical sum modulo 2^64, and lies at most one 2^64 below it |
| `Unsigned.Sub64` | libs/vkd3d-common/profiling.c:132 | `end_ticks - start_ticks` is the difference modulo 2^64, and adding `start_ticks` back gives `end_ticks` again, even when the ticks went backwards |
| `CString.Length` | libs/vkd3d-common/profiling.c:101 | the length of a C string: no NUL byte comes before it, and a NUL byte (or the end of the buffer) comes at it |
| `CString.StrNCpy` | libs/vkd3d-common/profiling.c:101 | `strncpy` writes exactly `n` bytes: byte `i` is the source's byte `i` while `i` is below the string's length, and 0 from there on |
| `CString.Read` | libs/vkd3d-common/profiling.c:100 | a name field is read as the bytes before its first NUL, or as the whole field when no terminator was written |
| `CString.StrNCpyTerminated` | libs/vkd3d-common/profiling.c:100-101 | the field gets a terminating NUL if and only if the name is shorter than the field |
| `CString.ReadStrNCpy` | libs/vkd3d-common/profiling.c:100-101 | reading back a field written by `strncpy` gives the name cut to the field width: silent truncation, never corruption |
| `CString.ReadStrNCpyFits` | libs/vkd3d-common/profiling.c:101 | a NUL-free name shorter than the field is read back unchanged |
| `Profiling.Register` | libs/vkd3d-common/profiling.c:85-117 | unmapped: returns 0 and changes nothing. Resolved latch: returns its value and changes nothing. Fresh latch with fewer than 1024 claimed: the count goes up by one, and the new count, in [1, 1024], is both returned and stored in the latch. Only the name of block `index-1` changes, to the `strncpy` of the name over 48 bytes. Fresh latch once 1024 are claimed: returns 0, the latch stays 0, the table is unchanged and the count still goes up. A latch this registry produced is returned as is, and lies in [0, 1024] |
| `Profiling.Notify` | libs/vkd3d-common/profiling.c:119-133 | index 0, an index above 1024 or an unmapped table: no effect. Otherwise block `index-1` gets `iteration_total` = (old + iteration_count) mod 2^64 and `ticks_total` = (old + (end - start) mod 2^64) mod 2^64. Its name and every other block stay unchanged |
| `Profiling.Registry.Init` | libs/vkd3d-common/profiling.c:48-83 | the table is mapped exactly when a profile path is set and opening, sizing and mapping the file all succeed; it is then a fresh table of 1024 all-zero blocks, and the count is 0; the size identity `MAX_REGIONS` blocks of `BLOCK_SIZE` bytes = `FILE_SIZE` is stated alongside |
| `Profiling.Registry.RegisterRegion` | libs/vkd3d-common/profiling.c:85-117 | the new count, table, latch value and returned index are exactly those `Register` gives from the old ones, and the registry stays well formed |
| `Profiling.Registry.NotifyWork` | libs/vkd3d-common/profiling.c:119-133 | the new table is exactly the one `Notify` gives from the old one, written in place |
| `Runs.RegisterAll` | libs/vkd3d-common/profiling.c:93-113 | a run of registrations keeps the registry well formed, and raises the count by at most one per call |
| `Runs.RegisterKeepsLatchesValid` | libs/vkd3d-common/profiling.c:96-103 | one registration keeps every latch at 0 or a claimed slot, and keeps distinct latches on distinct slots |
| `Runs.RegisterAllSlotsDistinct` | libs/vkd3d-common/profiling.c:93-113 | over any run: a resolved latch never changes, and every call that gets a slot gets its site's final latch value. Calls from one site converge on one index, and calls from different sites never share a slot |
| `Runs.ExhaustionIsSticky` | libs/vkd3d-common/profiling.c:97-109 | once 1024 regions are claimed, later registrations change neither the table nor any latch: unresolved sites keep getting 0 |
| `Runs.FreshSitesGetConsecutiveSlots` | libs/vkd3d-common/profiling.c:96-109 | distinct fresh sites get the slots after those already claimed, in strictly increasing order, while the count stays within 1024, and get 0 from then on |
| `Runs.DisabledRegistrationIsNoop` | libs/vkd3d-common/profiling.c:88-89 | with the table unmapped, any run of registrations returns 0 every time and changes no latch and no state |
| `Runs.NotifyAll` | libs/vkd3d-common/profiling.c:119-133 | any run of updates keeps the count and the well-formedness of the table |
| `Runs.NotifyAllAccumulates` | libs/vkd3d-common/profiling.c:126-132 | after any run of updates for a valid index, both accumulators hold their exact totals modulo 2^64. No update is lost; the name and all other blocks are unchanged |
| `Runs.NotifyAllIgnoresRejected` | libs/vkd3d-common/profiling.c:124-125 | any run of updates with index 0, an index above 1024 or an unmapped table leaves the state unchanged |
| `Runs.NotifyCommutes` | libs/vkd3d-common/profiling.c:128-132 | two updates give the same state in either order, so concurrent relaxed updates need no ordering |
| `Runs.AddWorkCommutes` | libs/vkd3d-common/profiling.c:131-132 | two updates to one block give the same block in either order |
| `Runs.RegisterCommutesWithNotify` | libs/vkd3d-common/profiling.c:85-133 | a registration and an update give the same state in either order, and the registration returns the same index and latch value either way |

## Left out

- Locks and memory ordering are not modelled: the per-site `lock`, the process-wide `profiling_lock`, the release store of the latch and the relaxed atomic adds. Each operation is taken as atomic; what concurrent callers see is modelled only as some sequential order of whole operations. `NotifyCommutes` shows that the order of updates does not matter.
- The `lock` parameter of `vkd3d_profiling_register_region` is dropped, since acquiring and releasing it has no effect on the modelled state.
- Torn reads of the two accumulators, updated as a non-atomic pair, are not modelled. They matter only to an outside reader during a concurrent update.
- `pthread_once`, `getenv("VKD3D_PROFILE_PATH")`, the path built with the process id, `open`, `ftruncate`, `mmap` and `ERR` logging are I/O. `Profiling.Registry.Init` takes their outcomes as booleans. `profiling_fd` is not modelled.
- `Profiling.Registry.Init`: the code tests the `mmap` result against NULL rather than `MAP_FAILED`. The model does not follow that test; a failed mapping just leaves the table unmapped.
- `Profiling.Register`: requires the count to be below 2^32 - 1, so the 32-bit `profiling_region_count` never wraps to 0. After a wrap the claimed index is 0, and `index - 1` in `unsigned int` arithmetic makes the code write to element `UINT_MAX` of the table, far out of bounds. That is the block just before the table only where pointers are 32 bits wide. The fresh calls after it would get slots 1, 2, … again.
- `Profiling.Registry.RegisterRegion`: has the same requirement that the count be below 2^32 - 1.
- `Runs.RegisterAll`: requires the count plus the number of calls to stay within 2^32 - 1, for the same reason.
- `Runs.ExhaustionIsSticky`: holds only while the count plus the number of calls stays within 2^32 - 1. After exhaustion an unresolved site's latch stays 0, so every later call from that site increments the count again and counts toward that bound. The wrap can be reached by call volume alone; past it, exhaustion ends and slots are handed out again.
- `Runs.RegisterAllSlotsDistinct`: holds only under the same bound, and each call from an exhausted site counts toward it. Past the wrap, a second site would get slot 1 again and share it.
- The name argument is a byte sequence. The string ends at its first NUL byte, or at the end of the sequence if it has none; reading past a buffer is not modelled.
- The byte encoding of a block in the file (native-endian accumulators) is not modelled. Only the block's size and field widths are (`BLOCK_SIZE`, `NAME_SIZE`, `FILE_SIZE`). Of the external reader of the file, only how it takes a name field (`CString.Read`) is modelled.
