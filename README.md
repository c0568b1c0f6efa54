# Contiguous memory manager

This project models the contiguous memory allocator of the two memory-management
simulators, `tarea1.cpp` and `tarea2.cpp`. Each one has a `MemoryManager` class that
keeps three things:

- an address space of `total_memory` units;
- an ordered list of blocks (start, size, owning process, free flag);
- an index from process name to the start of its block.

`allocate` takes a name and a size. It refuses a non-positive size and a name that
already holds memory. Otherwise it picks a free block that is large enough and splits
it: an owned block of exactly the requested size at the old start, then a free block
holding whatever is left. `deallocate` looks the name up, marks its block free, and
merges neighbouring free blocks. `show_statistics` counts free and used units and blocks.

`tarea1.cpp` always places by first-fit, and writes the split inside `allocate`.
`tarea2.cpp` moves the split into `allocate_block` and chooses the block by the active
strategy: first-, best- or worst-fit. The strategy is set by `set_algorithm` and by the
`ALG 1|2|3` command.

The model is imperative, like the source:

- `Tarea1.MemoryManager` and `Tarea2.MemoryManager` are classes. Their fields are `blocks`, a
  `seq<Block>`, and `locations`, a `map<string, int>`; `Tarea2` also has `algorithm`. Every
  operation is a method with a loop where the source loops.
- Each method is proved against specification functions:
  - `Placement.FirstFitIndex`, `BestFitIndex` and `WorstFitIndex` are the three scans;
  - `Allocation.Place` is the split;
  - `Release.MergeAt` is one merge;
  - `Blocks.Allocated` lists the owned blocks;
  - `Stats.Tally` is the counters.
- The state invariant `Layout.Wellformed` holds four things:
  - the blocks tile `[0, total)` in address order, with positive sizes;
  - no two neighbouring blocks are both free;
  - free blocks carry no name;
  - the index has an entry for a name exactly when a block owned by that name exists, and
    the entry holds that block's start.

  Every operation keeps this invariant. The sizes then add up to `total_memory`
  (`Layout.TilingSum`).
- `Lockstep` shows that the first-fit-only manager of `tarea1.cpp` is the first-fit case
  of the manager in `tarea2.cpp`.

Both files call `std::sort` by start before merging. The model treats that sort as the
identity: a tiling is already sorted (`Layout.TilingOrder`).

## Model

| member | source | states |
|---|---|---|
| Tarea2.MemoryManager.constructor | Algoritmos/Tareas/tarea2.cpp:111-115 | construction yields one free block `(0, size)`, an empty index, the given strategy, and a valid state |
| Tarea2.MemoryManager.SetAlgorithm | Algoritmos/Tareas/tarea2.cpp:118-120 | only the strategy changes, to the one given |
| Tarea2.MemoryManager.AllocateBlock | Algoritmos/Tareas/tarea2.cpp:89-108 | the chosen free block becomes `Place`: an owned block of exactly `size` at the old start, followed by the free remainder when it is positive; the index gains `name -> start`; the invariant is kept |
| Tarea2.MemoryManager.AllocateFirstFit | Algoritmos/Tareas/tarea2.cpp:40-48 | succeeds exactly when `FirstFitIndex` finds a block and then splits that block; on failure blocks and index are unchanged |
| Tarea2.MemoryManager.AllocateBestFit | Algoritmos/Tareas/tarea2.cpp:51-67 | the scan loop computes `BestFitIndex`; succeeds exactly when it finds a block and splits that block; on failure nothing changes |
| Tarea2.MemoryManager.AllocateWorstFit | Algoritmos/Tareas/tarea2.cpp:70-86 | the scan loop computes `WorstFitIndex`; succeeds exactly when it finds a block and splits that block; on failure nothing changes |
| Tarea2.MemoryManager.Allocate | Algoritmos/Tareas/tarea2.cpp:133-169 | succeeds exactly when the size is positive, the name is new and the active strategy finds a block; then the state is that block split for the name; any refusal changes nothing; the invariant is kept |
| Tarea2.MemoryManager.Deallocate | Algoritmos/Tareas/tarea2.cpp:172-196 | succeeds exactly when the name is in the index; then the entry is removed and the owned blocks are the old ones minus the name's; an unknown name changes nothing; the invariant is kept; the fall-through `return false` cannot be reached |
| Tarea2.MemoryManager.MergeFreeBlocks | Algoritmos/Tareas/tarea2.cpp:199-217 | afterwards the list still tiles the space, no two neighbours are both free, and the owned blocks are unchanged |
| Tarea2.MemoryManager.ShowStatistics | Algoritmos/Tareas/tarea2.cpp:297-311 | the counters are `Tally` of the list; free plus used units equal `total_memory`; free plus used blocks equal the block count |
| Tarea2.ApplyAlgCommand | Algoritmos/Tareas/tarea2.cpp:463-480 | 1, 2 and 3 select first-, best- and worst-fit; any other number is refused and leaves the strategy as it was |
| Tarea2.ReleaseAll | Algoritmos/Tareas/tarea2.cpp:172-217 | releasing every process, in any order, leaves one free block spanning the whole space and an empty index |
| Tarea1.MemoryManager.constructor | Algoritmos/Tareas/tarea1.cpp:32-35 | construction yields one free block `(0, size)`, an empty index, and a valid state |
| Tarea1.MemoryManager.Allocate | Algoritmos/Tareas/tarea1.cpp:38-80 | succeeds exactly when the size is positive, the name is new and some free block fits; then the first such block is split and the index records its start; any refusal changes nothing; the invariant is kept |
| Tarea1.MemoryManager.Deallocate | Algoritmos/Tareas/tarea1.cpp:83-107 | succeeds exactly when the name is in the index; then the entry is removed and the owned blocks are the old ones minus the name's; an unknown name changes nothing; the invariant is kept |
| Tarea1.MemoryManager.MergeFreeBlocks | Algoritmos/Tareas/tarea1.cpp:110-128 | afterwards the list still tiles the space, no two neighbours are both free, and the owned blocks are unchanged |
| Tarea1.MemoryManager.ShowStatistics | Algoritmos/Tareas/tarea1.cpp:181-195 | free plus used units equal `total_memory`; free plus used blocks equal the block count |
| Tarea1.AllocateThenRelease | Algoritmos/Tareas/tarea1.cpp:32-128 | from a fresh manager, allocating one process and releasing it restores the single whole-space free block and the empty index |
| Placement.FirstFitCorrect | Algoritmos/Tareas/tarea2.cpp:40-48 | the first-fit scan returns the lowest-index free block of at least `size`, or nothing exactly when no block fits |
| Placement.BestFitCorrect | Algoritmos/Tareas/tarea2.cpp:51-67 | the best-fit scan returns a fitting block of least size, the earliest of equal ones (strict `<`), or nothing exactly when no block fits |
| Placement.WorstFitCorrect | Algoritmos/Tareas/tarea2.cpp:70-86 | the worst-fit scan returns a fitting block of greatest size, the earliest of equal ones (strict `>`), or nothing exactly when no block fits |
| Placement.SelectFindsFit | Algoritmos/Tareas/tarea2.cpp:147-157 | whatever the strategy, a block is found exactly when some free block is large enough, and the block found fits |
| Placement.StrategiesOrdered | Algoritmos/Tareas/tarea2.cpp:40-86 | the three strategies succeed on the same requests; best-fit's block is never larger than first-fit's, and worst-fit's never smaller |
| Placement.NamesDistinct | Algoritmos/Tareas/tarea2.cpp:123-130 | `get_algorithm_name` gives different names to different strategies |
| Placement.FromSelector | Algoritmos/Tareas/tarea2.cpp:467-474 | a strategy is named exactly for 1, 2 and 3, and it is the one whose number is the input |
| Placement.BestFitAsWrittenAgrees | Algoritmos/Tareas/tarea2.cpp:51-60 | when every free block is smaller than `INT_MAX`, the scan as written (sentinel `INT_MAX`, strict `<`) picks the same block as `BestFitIndex` and ends with that block's size |
| Placement.BestFitSentinelMissesFullRun | Algoritmos/Tareas/tarea2.cpp:53-56 | a single free block of `INT_MAX` units is never taken by the scan as written, although best-fit calls for it |
| Allocation.PlaceWellformed | Algoritmos/Tareas/tarea2.cpp:89-108 | splitting a free block of at least `size` for a new name keeps the tiling, the coalescing, the unnamed free blocks and the index agreement |
| Allocation.PlaceAllocated | Algoritmos/Tareas/tarea2.cpp:94-105 | the split adds exactly one owned block, of `size` units at the old start, between the owned blocks before and after it |
| Allocation.PlaceShape | Algoritmos/Tareas/tarea2.cpp:97-105 | the blocks before and after the chosen one are untouched; the chosen position holds the owned block; a remainder follows only when the block was larger than the request |
| Release.FreeRunIndex | Algoritmos/Tareas/tarea2.cpp:179-186 | freeing the block a process owns keeps the tiling; the index without that name matches the new list |
| Release.FreeRunAllocated | Algoritmos/Tareas/tarea2.cpp:184-186 | freeing the only block a name owns removes exactly that name from the owned blocks |
| Release.MergeAtFacts | Algoritmos/Tareas/tarea2.cpp:208-212 | merging two neighbouring free blocks keeps the tiling, the owned blocks and the blocks before the merge point, and shortens the list by one |
| Release.MergeFreeBlocks | Algoritmos/Tareas/tarea2.cpp:207-216 | the merge loop ends with a coalesced tiling of the same space with the same owned blocks |
| Layout.LayoutDetermined | Algoritmos/Tareas/tarea2.cpp:172-217 | two coalesced tilings of the same space with unnamed free blocks and the same owned blocks are equal, so deallocate's postcondition fixes the whole list |
| Layout.EmptyIndexIsWholeSpace | Algoritmos/Tareas/tarea2.cpp:111-115 | a valid state with an empty index is exactly the initial single free block |
| Layout.TilingOrder | Algoritmos/Tareas/tarea2.cpp:201-204 | a tiling is sorted by start, so the sort before merging changes nothing |
| Layout.TilingSum | Algoritmos/Tareas/tarea2.cpp:298-311 | the sizes of a tiling of `[lo, hi)` add up to `hi - lo` |
| Layout.SoleOwner | Algoritmos/Tareas/tarea2.cpp:179-184 | in a valid state no other owned block has the same owner, so the block deallocate finds is the name's only one |
| Stats.Tally | Algoritmos/Tareas/tarea2.cpp:298-311 | the free and used units add up to the sum of the sizes; the free and used counts add up to the number of blocks |
| Stats.TallyUsed | Algoritmos/Tareas/tarea2.cpp:307-309 | the used counters are the number and total size of the owned blocks |
| Stats.CountBlocks | Algoritmos/Tareas/tarea2.cpp:298-311 | the counting loop computes `Tally`, and its used side counts the owned blocks |
| Lockstep.AllocateAgrees | Algoritmos/Tareas/tarea1.cpp:38-80 | from equal states, `tarea1.cpp`'s allocate and `tarea2.cpp`'s allocate under first-fit give the same answer and reach equal valid states |
| Lockstep.DeallocateAgrees | Algoritmos/Tareas/tarea1.cpp:83-107 | from equal states, the two deallocates give the same answer and reach equal valid states |

## Left out

- Console output of `allocate` and `deallocate`: only the boolean result and the new state are modelled.
- `show_memory`, `show_detailed_memory` and the text of `show_statistics`: they are presentation only.
- The percentages in `show_statistics`: they use floating-point division.
- Reading commands and files, and the interactive loops: they are I/O.
- Token parsing in `process_command`, and the `std::atoi` / `std::cin` argument handling in `main`. Only the ALG number-to-strategy switch is modelled, in `Placement.FromSelector` and `Tarea2.ApplyAlgCommand`.
- The `std::sort` calls before merging and showing are taken as the identity. The list always tiles the space and is therefore sorted (`Layout.TilingOrder`).
- Tarea2.MemoryManager.constructor and Tarea1.MemoryManager.constructor require a positive size. The C++ constructors accept any `int`. Both drivers raise any size below 100 to 100 or reject it, so the managers only ever see sizes of at least 100.
- Default arguments of the constructors, and the driver's fallback to first-fit for an unknown start-up algorithm: they are argument handling.
- Tarea2.MemoryManager.GetAlgorithmName is modelled by `Placement.Name`. The `"Desconocido"` default is left out because the enumeration has only three values. `Placement.NamesDistinct` states its property.
- Placement.WorstFitIndex starts without a choice instead of from the `-1` sentinel. Every block has a positive size, so `-1` never decides anything.
- Placement.BestFitIndex starts without a choice instead of from the `INT_MAX` sentinel. The scan as written is `Placement.BestFitAsWritten`; see Findings.
- `int` overflow: positions and sizes are unbounded integers. Every start, size and sum stays within `[0, total_memory]`, so no operation in the core can overflow a 32-bit `int`.
- The iterator `memory_blocks.end() - 1` on an empty list is not modelled. The list is never empty (`Layout.Tiling`).
- Tarea2.MemoryManager.Deallocate and Tarea1.MemoryManager.Deallocate state the new list through its owned blocks. `Layout.LayoutDetermined` proves that this fixes the whole list.

## Findings

| source | as written | input that shows it | evidently intended | confidence | as-written member | corrected member |
|---|---|---|---|---|---|---|
| Algoritmos/Tareas/tarea2.cpp:53-56 | best-fit starts its best size at `INT_MAX` and only takes a block strictly smaller | `total_memory` = 2147483647 (accepted; the drivers only impose a floor of 100), best-fit, `A P 1`: the only free block has size `INT_MAX`, so it is never taken and the request is refused | the smallest free block of at least `size` is taken whatever its size | not executed | Placement.BestFitSentinelMissesFullRun | Placement.BestFitCorrect |
