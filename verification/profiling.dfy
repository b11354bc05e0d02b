/** The profiling-region registry: a table of fixed-size counter blocks in a
    shared mapping, a process-wide count of registered regions, and
    caller-owned latches that cache each call site's slot index.

    The state is given twice: as a value (`State`) with the two operations
    `Register` and `Notify` as functions, and as the `Registry` class whose
    methods update the table in place and are proved to follow those
    functions. Locks and atomics are left out: every operation runs to
    completion on its own. */
module Profiling {
  import opened Unsigned
  import CString

  /** Number of slots in the table; index 0 is never a slot. */
  const MAX_REGIONS: nat := 1024
  /** Size of one counter block in bytes. */
  const BLOCK_SIZE: nat := 64
  /** The name field fills what the two 8-byte accumulators leave of a block. */
  const NAME_SIZE: nat := BLOCK_SIZE - 2 * 8
  /** Size the backing file is truncated to. */
  const FILE_SIZE: nat := MAX_REGIONS * BLOCK_SIZE

  /** One counter block: total ticks, total iterations and a fixed-width name. */
  datatype Block = Block(ticksTotal: u64, iterationTotal: u64, name: seq<bv8>)

  /** A block as the initial `memset` leaves it. */
  const ZERO_BLOCK: Block := Block(0, 0, CString.Zeros(NAME_SIZE))

  /** The mapped table, or its absence when profiling is disabled or its
      set-up failed. */
  datatype Table = Unmapped | Mapped(blocks: seq<Block>)

  /** The registry's process-wide state. */
  datatype State = State(regionCount: nat, table: Table)

  /** What the registry always maintains: a disabled registry never counts a
      region; a mapped table has `MAX_REGIONS` blocks with full-width names,
      and the name of every slot not yet claimed is still all zero. */
  predicate WellFormed(s: State)
  {
    match s.table
    case Unmapped => s.regionCount == 0
    case Mapped(blocks) =>
      |blocks| == MAX_REGIONS &&
      (forall i :: 0 <= i < |blocks| ==> |blocks[i].name| == NAME_SIZE) &&
      (forall i :: s.regionCount <= i < |blocks| ==> blocks[i].name == CString.Zeros(NAME_SIZE))
  }

  /** A latch value this registry can have produced: 0, or a claimed slot. */
  predicate LatchValid(s: State, latch: u32)
  {
    latch as int <= s.regionCount && latch as int <= MAX_REGIONS
  }

  /** `after` is `before` with only block `k` renamed to `name`; both of its
      accumulators are kept. */
  predicate OnlyNameChanged(before: seq<Block>, after: seq<Block>, k: int, name: seq<bv8>)
  {
    |after| == |before| && 0 <= k < |before| &&
    (forall j :: 0 <= j < |before| && j != k ==> after[j] == before[j]) &&
    after[k].name == name &&
    after[k].ticksTotal == before[k].ticksTotal &&
    after[k].iterationTotal == before[k].iterationTotal
  }

  /** The outcome of one registration: the new state, the new latch value
      and the returned index. */
  datatype Registration = Registration(state: State, latch: u32, index: u32)

  /** Registering a region at a call site whose latch holds `latch`. */
  function Register(s: State, latch: u32, name: seq<bv8>): (r: Registration)
    requires WellFormed(s)
    requires s.regionCount < U32_MAX
    ensures WellFormed(r.state)
    ensures r.state.table.Mapped? == s.table.Mapped?
    ensures s.regionCount <= r.state.regionCount <= s.regionCount + 1
    // disabled: nothing happens
    ensures s.table.Unmapped? ==> r == Registration(s, latch, 0)
    // latch already resolved: its value is returned and nothing changes
    ensures s.table.Mapped? && latch != 0 ==> r == Registration(s, latch, latch)
    // fresh latch with room left: the next slot is claimed and named
    ensures s.table.Mapped? && latch == 0 && s.regionCount < MAX_REGIONS ==>
      && r.index as int == r.state.regionCount == s.regionCount + 1
      && 1 <= r.index as int <= MAX_REGIONS
      && r.latch == r.index
      && OnlyNameChanged(s.table.blocks, r.state.table.blocks, r.index as int - 1,
                         CString.StrNCpy(name, NAME_SIZE))
    // fresh latch, table exhausted: the count still advances, nothing else
    ensures s.table.Mapped? && latch == 0 && s.regionCount >= MAX_REGIONS ==>
      && r.index == 0 && r.latch == 0
      && r.state.regionCount == s.regionCount + 1 && r.state.table == s.table
    // a latch this registry produced stays one, and the call returns it
    ensures LatchValid(s, latch) ==>
      && LatchValid(r.state, r.latch)
      && r.index == r.latch
      && (r.index == 0 || 1 <= r.index as int <= MAX_REGIONS)
  {
    match s.table
    case Unmapped => Registration(s, latch, 0)
    case Mapped(blocks) =>
      if latch != 0 then Registration(s, latch, latch)
      else
        var index := s.regionCount + 1;
        if index <= MAX_REGIONS then
          var named := blocks[index - 1].(name := CString.StrNCpy(name, NAME_SIZE));
          Registration(State(index, Mapped(blocks[index - 1 := named])), index as u32, index as u32)
        else
          Registration(State(index, s.table), 0, 0)
  }

  /** Whether `Notify` acts on `index`. */
  predicate Accepts(s: State, index: u32)
  {
    index != 0 && index as int <= MAX_REGIONS && s.table.Mapped?
  }

  /** Adding one piece of work, timed from `startTicks` to `endTicks`, to the
      block of region `index`. */
  function Notify(s: State, index: u32, startTicks: u64, endTicks: u64, iterationCount: u32): (t: State)
    requires WellFormed(s)
    ensures WellFormed(t)
    ensures t.regionCount == s.regionCount && t.table.Mapped? == s.table.Mapped?
    ensures !Accepts(s, index) ==> t == s
    ensures Accepts(s, index) ==>
      var k := index as int - 1;
      var before, after := s.table.blocks, t.table.blocks;
      && |after| == |before|
      && (forall j :: 0 <= j < |before| && j != k ==> after[j] == before[j])
      && after[k].name == before[k].name
      && after[k].iterationTotal as int == (before[k].iterationTotal as int + iterationCount as int) % TWO_64
      && after[k].ticksTotal as int ==
         (before[k].ticksTotal as int + (endTicks as int - startTicks as int) % TWO_64) % TWO_64
  {
    if !Accepts(s, index) then s
    else
      var k := index as int - 1;
      s.(table := Mapped(s.table.blocks[k := AddWork(s.table.blocks[k], startTicks, endTicks, iterationCount)]))
  }

  /** The block after one report: both accumulators advanced, with the
      wrap-around of `uint64_t`. */
  function AddWork(b: Block, startTicks: u64, endTicks: u64, iterationCount: u32): Block
  {
    b.(iterationTotal := Add64(b.iterationTotal, iterationCount as u64),
       ticksTotal := Add64(b.ticksTotal, Sub64(endTicks, startTicks)))
  }

  /** A caller-owned latch cell: 0 until its call site has been given a slot. */
  class Latch {
    var value: u32

    constructor ()
      ensures value == 0
    {
      value := 0;
    }
  }

  /** The registry: the process-wide region count and the mapped table
      (`null` when profiling is disabled). */
  class Registry {
    var regionCount: nat
    var blocks: array?<Block>

    /** The registry as a value. */
    ghost function Abstract(): State
      reads this, blocks
    {
      State(regionCount, if blocks == null then Unmapped else Mapped(blocks[..]))
    }

    ghost predicate Valid()
      reads this, blocks
    {
      (blocks != null ==> blocks.Length == MAX_REGIONS) && WellFormed(Abstract())
    }

    /** One-time set-up. `profilePathSet` says whether a profile path is
        configured; `fileOpened`, `fileResized` and `fileMapped` are the outcomes of
        opening, sizing and mapping the backing file. The table is mapped
        only if all of them succeed, and is then cleared to zero. */
    constructor Init(profilePathSet: bool, fileOpened: bool, fileResized: bool, fileMapped: bool)
      ensures Valid() && regionCount == 0
      ensures blocks != null <==> profilePathSet && fileOpened && fileResized && fileMapped
      ensures blocks != null ==>
        fresh(blocks) && blocks.Length * BLOCK_SIZE == FILE_SIZE &&
        forall i :: 0 <= i < blocks.Length ==> blocks[i] == ZERO_BLOCK
    {
      var table: array?<Block> := null;
      if profilePathSet {
        if fileOpened {
          if fileResized {
            if fileMapped {
              var mapping := new Block[MAX_REGIONS];
              forall i | 0 <= i < mapping.Length {
                mapping[i] := ZERO_BLOCK;
              }
              table := mapping;
            }
          }
        }
      }
      regionCount := 0;
      blocks := table;
    }

    /** Resolves the slot index of the call site whose latch is `latch`,
        claiming and naming a fresh slot the first time. */
    method RegisterRegion(name: seq<bv8>, latch: Latch) returns (index: u32)
      requires Valid()
      requires regionCount < U32_MAX
      modifies this`regionCount, blocks, latch
      ensures Valid()
      ensures Registration(Abstract(), latch.value, index) == Register(old(Abstract()), old(latch.value), name)
    {
      if blocks == null {
        return 0;
      }
      if latch.value == 0 {
        regionCount := regionCount + 1;
        index := regionCount as u32;
        if index as int <= MAX_REGIONS {
          blocks[index - 1] := blocks[index - 1].(name := CString.StrNCpy(name, NAME_SIZE));
          latch.value := index;
        } else {
          index := 0;
        }
      } else {
        index := latch.value;
      }
    }

    /** Adds `iterationCount` and the ticks from `startTicks` to `endTicks`
        into the block of region `index`; ignores an index outside
        `[1, MAX_REGIONS]` and a disabled registry. */
    method NotifyWork(index: u32, startTicks: u64, endTicks: u64, iterationCount: u32)
      requires Valid()
      modifies blocks
      ensures Valid()
      ensures Abstract() == Notify(old(Abstract()), index, startTicks, endTicks, iterationCount)
    {
      if index == 0 || index as int > MAX_REGIONS || blocks == null {
        return;
      }
      var k := index - 1;
      blocks[k] := blocks[k].(iterationTotal := Add64(blocks[k].iterationTotal, iterationCount as u64));
      blocks[k] := blocks[k].(ticksTotal := Add64(blocks[k].ticksTotal, Sub64(endTicks, startTicks)));
    }
  }
}
