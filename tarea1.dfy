/**
 * The memory manager of tarea1.cpp: the same block list and process index
 * as tarea2.cpp, with first-fit as its only placement and the split written
 * inside allocate.
 */
module Tarea1 {
  import opened Wrappers
  import opened Blocks
  import opened Layout
  import opened Allocation
  import opened Release
  import opened Stats
  import opened Placement

  class MemoryManager {
    const totalMemory: int
    var blocks: seq<Block>
    var locations: map<string, int>

    /** The blocks tile [0, totalMemory), no two free blocks touch, and the index agrees with the owners. */
    ghost predicate Valid()
      reads this
    {
      Wellformed(blocks, locations, totalMemory)
    }

    /** The whole space starts as one free block and no process is known. */
    constructor (size: int)
      requires size > 0
      ensures Valid()
      ensures totalMemory == size
      ensures blocks == [Block(0, size, "", true)] && locations == map[]
    {
      totalMemory := size;
      blocks := [Block(0, size, "", true)];
      locations := map[];
    }

    /**
     * allocate (command A): a size of zero or less, a name already in the
     * index and a request no free block can hold are refused and change
     * nothing; otherwise the first free block large enough is split into an
     * owned block at its start and a free remainder, if any.
     */
    method Allocate(name: string, size: int) returns (ok: bool)
      requires Valid()
      modifies this`blocks, this`locations
      ensures Valid()
      ensures ok == (size > 0 && name !in old(locations) && FirstFitIndex(old(blocks), size).Some?)
      ensures ok ==> var k := FirstFitIndex(old(blocks), size).value;
                     blocks == Place(old(blocks), k, name, size) && locations == old(locations)[name := old(blocks)[k].start]
      ensures !ok ==> blocks == old(blocks) && locations == old(locations)
    {
      if size <= 0 {
        return false;
      }
      if name in locations {
        return false;
      }
      // The first free block large enough, scanning from address 0.
      var i := 0;
      while i < |blocks| && !(blocks[i].isFree && blocks[i].size >= size)
        invariant 0 <= i <= |blocks|
        invariant forall j :: 0 <= j < i ==> !Fits(blocks[j], size)
      {
        i := i + 1;
      }
      if i == |blocks| {
        assert FirstFitIndex(blocks, size).None? by {
          FirstFitCorrect(blocks, size);
        }
        return false;
      }
      assert FirstFitIndex(blocks, size) == Some(i) by {
        FirstFitCorrect(blocks, size);
        FirstFitUnique(blocks, size, FirstFitIndex(blocks, size), Some(i));
      }
      ghost var placed := Place(blocks, i, name, size);
      assert Wellformed(placed, locations[name := blocks[i].start], totalMemory) by {
        PlaceWellformed(blocks, locations, totalMemory, i, name, size);
      }
      var startPos := blocks[i].start;
      var remaining := blocks[i].size - size;
      var used := Block(startPos, size, name, false);
      if remaining > 0 {
        var rest := blocks[i].(start := startPos + size, size := remaining);
        assert blocks[..i] + [used, rest] + blocks[i + 1..] == placed by {
          SplitIsPlace(blocks, i, name, size);
        }
        blocks := blocks[..i] + [used, rest] + blocks[i + 1..];
      } else {
        assert blocks[i := used] == placed by {
          SplitIsPlace(blocks, i, name, size);
        }
        blocks := blocks[i := used];
      }
      locations := locations[name := startPos];
      return true;
    }

    /**
     * deallocate (command L): an unknown name is refused and changes nothing;
     * otherwise the name leaves the index, its block becomes free, and free
     * neighbours are merged.
     */
    method Deallocate(name: string) returns (ok: bool)
      requires Valid()
      modifies this`blocks, this`locations
      ensures Valid()
      ensures ok == (name in old(locations))
      ensures ok ==> locations == old(locations) - {name}
      ensures ok ==> Allocated(blocks) == ExceptOwner(Allocated(old(blocks)), name)
      ensures !ok ==> blocks == old(blocks) && locations == old(locations)
    {
      if name !in locations {
        return false;
      }
      var processStart := locations[name];
      locations := locations - {name};
      var i := 0;
      while i < |blocks|
        invariant 0 <= i <= |blocks|
        invariant blocks == old(blocks) && locations == old(locations) - {name}
        invariant forall j :: 0 <= j < i ==> !(!blocks[j].isFree && blocks[j].start == processStart && blocks[j].owner == name)
      {
        if !blocks[i].isFree && blocks[i].start == processStart && blocks[i].owner == name {
          FreeRunIndex(blocks, old(locations), totalMemory, i, name);
          SoleOwner(blocks, old(locations), totalMemory, i);
          FreeRunAllocated(blocks, i, name);
          blocks := blocks[i := blocks[i].(isFree := true, owner := "")];
          ghost var freed := blocks;
          MergeFreeBlocks();
          IndexTransfer(freed, blocks, locations);
          return true;
        }
        i := i + 1;
      }
      // The index entry always names a block its process owns, so the scan has returned.
      assert false;
    }

    /** merge_free_blocks: afterwards no two neighbouring blocks are free, and the owned blocks are as before. */
    method MergeFreeBlocks()
      requires Tiling(blocks, 0, totalMemory)
      modifies this`blocks
      ensures Tiling(blocks, 0, totalMemory) && Coalesced(blocks)
      ensures Allocated(blocks) == Allocated(old(blocks))
      ensures FreeUnowned(old(blocks)) ==> FreeUnowned(blocks)
    {
      blocks := Release.MergeFreeBlocks(blocks, totalMemory);
    }

    /** The counters of show_statistics: free and used units add up to the whole space, free and used blocks to the list. */
    method ShowStatistics() returns (st: Statistics)
      requires Valid()
      ensures st == Tally(blocks)
      ensures st.freeMemory + st.usedMemory == totalMemory
      ensures st.freeBlocks + st.usedBlocks == |blocks|
    {
      st := CountBlocks(blocks);
      TilingSum(blocks, 0, totalMemory);
    }
  }

  /**
   * From a fresh manager, allocating one process and releasing it again
   * restores the single free block spanning the whole space, whether or not
   * the allocation succeeded.
   */
  method AllocateThenRelease(total: int, name: string, size: int) returns (m: MemoryManager)
    requires total > 0
    ensures m.Valid() && m.totalMemory == total
    ensures m.blocks == [Block(0, total, "", true)] && m.locations == map[]
  {
    m := new MemoryManager(total);
    var placed := m.Allocate(name, size);
    var released := m.Deallocate(name);
    assert m.locations == map[];
    EmptyIndexIsWholeSpace(m.blocks, total);
  }
}
