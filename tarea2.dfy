/**
 * The memory manager of tarea2.cpp: a contiguous address space of
 * `totalMemory` units kept as an ordered block list, a process name -> start
 * index, and the placement strategy used by the next allocation.
 */
module Tarea2 {
  import opened Wrappers
  import opened Blocks
  import opened Layout
  import opened Allocation
  import opened Release
  import opened Stats
  import opened Placement

  class MemoryManager {
    const totalMemory: int
    var blocks: seq<Block>
    var locations: map<string, int>
    var algorithm: AllocationAlgorithm

    /** The blocks tile [0, totalMemory), no two free blocks touch, and the index agrees with the owners. */
    ghost predicate Valid()
      reads this
    {
      Wellformed(blocks, locations, totalMemory)
    }

    /** The whole space starts as one free block and no process is known. */
    constructor (size: int, alg: AllocationAlgorithm)
      requires size > 0
      ensures Valid()
      ensures totalMemory == size && algorithm == alg
      ensures blocks == [Block(0, size, "", true)] && locations == map[]
    {
      totalMemory := size;
      algorithm := alg;
      blocks := [Block(0, size, "", true)];
      locations := map[];
    }

    /** Only the strategy changes; it governs later allocations and leaves the blocks as they are. */
    method SetAlgorithm(alg: AllocationAlgorithm)
      modifies this`algorithm
      ensures algorithm == alg
    {
      algorithm := alg;
    }

    function GetAlgorithmName(): string
      reads this
    {
      Name(algorithm)
    }

    /**
     * allocate_block: the free block at `k` becomes an owned block of exactly
     * `size` units at the same start, followed by a free block of what is
     * left, if anything; the index records the start.
     */
    method AllocateBlock(k: nat, name: string, size: int)
      requires Valid()
      requires k < |blocks| && blocks[k].isFree && 0 < size <= blocks[k].size && name !in locations
      modifies this`blocks, this`locations
      ensures Valid()
      ensures blocks == Place(old(blocks), k, name, size)
      ensures locations == old(locations)[name := old(blocks)[k].start]
    {
      PlaceWellformed(blocks, locations, totalMemory, k, name, size);
      var startPos := blocks[k].start;
      var remaining := blocks[k].size - size;
      var used := Block(startPos, size, name, false);
      if remaining > 0 {
        var rest := blocks[k].(start := startPos + size, size := remaining);
        blocks := blocks[..k] + [used, rest] + blocks[k + 1..];
      } else {
        assert blocks[k := used] == blocks[..k] + [used] + blocks[k + 1..];
        blocks := blocks[k := used];
      }
      locations := locations[name := startPos];
    }

    /** allocate_first_fit: the first free block large enough, if any, is split. */
    method AllocateFirstFit(name: string, size: int) returns (ok: bool)
      requires Valid() && size > 0 && name !in locations
      modifies this`blocks, this`locations
      ensures Valid()
      ensures ok == FirstFitIndex(old(blocks), size).Some?
      ensures ok ==> var k := FirstFitIndex(old(blocks), size).value;
                     blocks == Place(old(blocks), k, name, size) && locations == old(locations)[name := old(blocks)[k].start]
      ensures !ok ==> blocks == old(blocks) && locations == old(locations)
    {
      var i := 0;
      while i < |blocks|
        invariant 0 <= i <= |blocks|
        invariant blocks == old(blocks) && locations == old(locations)
        invariant forall j :: 0 <= j < i ==> !Fits(blocks[j], size)
      {
        if blocks[i].isFree && blocks[i].size >= size {
          FirstFitCorrect(blocks, size);
          FirstFitUnique(blocks, size, FirstFitIndex(blocks, size), Some(i));
          AllocateBlock(i, name, size);
          return true;
        }
        i := i + 1;
      }
      FirstFitCorrect(blocks, size);
      return false;
    }

    /** allocate_best_fit: one scan keeps the smallest fitting block seen, replacing it only by a strictly smaller one. */
    method AllocateBestFit(name: string, size: int) returns (ok: bool)
      requires Valid() && size > 0 && name !in locations
      modifies this`blocks, this`locations
      ensures Valid()
      ensures ok == BestFitIndex(old(blocks), size).Some?
      ensures ok ==> var k := BestFitIndex(old(blocks), size).value;
                     blocks == Place(old(blocks), k, name, size) && locations == old(locations)[name := old(blocks)[k].start]
      ensures !ok ==> blocks == old(blocks) && locations == old(locations)
    {
      var best: Option<nat> := None;
      var i := 0;
      while i < |blocks|
        invariant 0 <= i <= |blocks|
        invariant best == BestFitIndex(blocks[..i], size)
      {
        assert blocks[..i + 1][..i] == blocks[..i];
        if blocks[i].isFree && blocks[i].size >= size && (best.None? || blocks[i].size < blocks[best.value].size) {
          best := Some(i);
        }
        i := i + 1;
      }
      assert blocks[..|blocks|] == blocks;
      if best.Some? {
        AllocateBlock(best.value, name, size);
        return true;
      }
      return false;
    }

    /** allocate_worst_fit: one scan keeps the largest fitting block seen, replacing it only by a strictly larger one. */
    method AllocateWorstFit(name: string, size: int) returns (ok: bool)
      requires Valid() && size > 0 && name !in locations
      modifies this`blocks, this`locations
      ensures Valid()
      ensures ok == WorstFitIndex(old(blocks), size).Some?
      ensures ok ==> var k := WorstFitIndex(old(blocks), size).value;
                     blocks == Place(old(blocks), k, name, size) && locations == old(locations)[name := old(blocks)[k].start]
      ensures !ok ==> blocks == old(blocks) && locations == old(locations)
    {
      var worst: Option<nat> := None;
      var i := 0;
      while i < |blocks|
        invariant 0 <= i <= |blocks|
        invariant worst == WorstFitIndex(blocks[..i], size)
      {
        assert blocks[..i + 1][..i] == blocks[..i];
        if blocks[i].isFree && blocks[i].size >= size && (worst.None? || blocks[i].size > blocks[worst.value].size) {
          worst := Some(i);
        }
        i := i + 1;
      }
      assert blocks[..|blocks|] == blocks;
      if worst.Some? {
        AllocateBlock(worst.value, name, size);
        return true;
      }
      return false;
    }

    /**
     * allocate (command A): a size of zero or less and a name already in the
     * index are refused, as is a request no free block can hold under the
     * active strategy; a refusal changes nothing.
     */
    method Allocate(name: string, size: int) returns (ok: bool)
      requires Valid()
      modifies this`blocks, this`locations
      ensures Valid()
      ensures ok == (size > 0 && name !in old(locations) && SelectIndex(algorithm, old(blocks), size).Some?)
      ensures ok ==> var k := SelectIndex(algorithm, old(blocks), size).value;
                     blocks == Place(old(blocks), k, name, size) && locations == old(locations)[name := old(blocks)[k].start]
      ensures !ok ==> blocks == old(blocks) && locations == old(locations)
    {
      if size <= 0 {
        return false;
      }
      if name in locations {
        return false;
      }
      match algorithm {
        case FirstFit =>
          ok := AllocateFirstFit(name, size);
        case BestFit =>
          ok := AllocateBestFit(name, size);
        case WorstFit =>
          ok := AllocateWorstFit(name, size);
      }
    }

    /**
     * deallocate (command L): an unknown name is refused and changes nothing;
     * otherwise the name leaves the index, its block becomes free, and free
     * neighbours are merged.  The owned blocks are the old ones minus the
     * name's (which, by LayoutDetermined, fixes the whole block list).
     */
    method Deallocate(name: string) returns (ok: bool)
      requires Valid()
      modifies this`blocks, this`locations
      ensures Valid()
      ensures ok == (name in old(locations))
      ensures ok ==> locations == old(locations) - {name}
      ensures ok ==> Allocated(blocks) == ExceptOwner(Allocated(old(blocks)), name)
      ensures !ok ==> blocks == old(blocks) && locations == old(locations)
    {
      if name !in locations {
        return false;
      }
      var processStart := locations[name];
      locations := locations - {name};
      var i := 0;
      while i < |blocks|
        invariant 0 <= i <= |blocks|
        invariant blocks == old(blocks) && locations == old(locations) - {name}
        invariant forall j :: 0 <= j < i ==> !(!blocks[j].isFree && blocks[j].start == processStart && blocks[j].owner == name)
      {
        if !blocks[i].isFree && blocks[i].start == processStart && blocks[i].owner == name {
          FreeRunIndex(blocks, old(locations), totalMemory, i, name);
          SoleOwner(blocks, old(locations), totalMemory, i);
          FreeRunAllocated(blocks, i, name);
          blocks := blocks[i := blocks[i].(isFree := true, owner := "")];
          ghost var freed := blocks;
          MergeFreeBlocks();
          IndexTransfer(freed, blocks, locations);
          return true;
        }
        i := i + 1;
      }
      // The index entry always names a block its process owns, so the scan has returned.
      assert false;
    }

    /** merge_free_blocks: afterwards no two neighbouring blocks are free, and the owned blocks are as before. */
    method MergeFreeBlocks()
      requires Tiling(blocks, 0, totalMemory)
      modifies this`blocks
      ensures Tiling(blocks, 0, totalMemory) && Coalesced(blocks)
      ensures Allocated(blocks) == Allocated(old(blocks))
      ensures FreeUnowned(old(blocks)) ==> FreeUnowned(blocks)
    {
      blocks := Release.MergeFreeBlocks(blocks, totalMemory);
    }

    /** The counters of show_statistics: free and used units add up to the whole space, free and used blocks to the list. */
    method ShowStatistics() returns (st: Statistics)
      requires Valid()
      ensures st == Tally(blocks)
      ensures st.freeMemory + st.usedMemory == totalMemory
      ensures st.freeBlocks + st.usedBlocks == |blocks|
    {
      st := CountBlocks(blocks);
      TilingSum(blocks, 0, totalMemory);
    }
  }

  /** The ALG command: 1, 2 and 3 select first-, best- and worst-fit; any other number is refused and the strategy stays. */
  method ApplyAlgCommand(m: MemoryManager, n: int) returns (ok: bool)
    modifies m`algorithm
    ensures ok == (1 <= n <= 3)
    ensures ok ==> m.algorithm == FromSelector(n).value
    ensures !ok ==> m.algorithm == old(m.algorithm)
  {
    var alg := FromSelector(n);
    if alg.None? {
      return false;
    }
    m.SetAlgorithm(alg.value);
    return true;
  }

  /** Releasing every process, in any order, leaves one free block spanning the whole space. */
  method ReleaseAll(m: MemoryManager, names: seq<string>)
    requires m.Valid()
    requires forall n :: n in m.locations ==> n in names
    modifies m
    ensures m.Valid()
    ensures m.blocks == [Block(0, m.totalMemory, "", true)] && m.locations == map[]
  {
    for i := 0 to |names|
      invariant m.Valid()
      invariant forall n :: n in m.locations ==> n in names[i..]
    {
      var released := m.Deallocate(names[i]);
      assert forall n :: n in names[i..] && n != names[i] ==> n in names[i + 1..];
    }
    assert m.locations == map[];
    EmptyIndexIsWholeSpace(m.blocks, m.totalMemory);
  }
}
