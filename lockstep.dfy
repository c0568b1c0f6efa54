/**
 * tarea1.cpp's manager behaves as tarea2.cpp's with first-fit selected:
 * from equal states, both answer every request alike and reach equal states.
 */
module Lockstep {
  import opened Blocks
  import opened Layout
  import opened Placement
  import Tarea1
  import Tarea2

  /** Both managers hold the same space, blocks and index. */
  ghost predicate SameState(m1: Tarea1.MemoryManager, m2: Tarea2.MemoryManager)
    reads m1, m2
  {
    m1.totalMemory == m2.totalMemory && m1.blocks == m2.blocks && m1.locations == m2.locations
  }

  method AllocateAgrees(m1: Tarea1.MemoryManager, m2: Tarea2.MemoryManager, name: string, size: int)
    returns (ok1: bool, ok2: bool)
    requires m1.Valid() && m2.Valid() && SameState(m1, m2) && m2.algorithm == FirstFit
    modifies m1, m2
    ensures ok1 == ok2
    ensures SameState(m1, m2) && m1.Valid() && m2.Valid()
  {
    assert SelectIndex(m2.algorithm, m2.blocks, size) == FirstFitIndex(m1.blocks, size);
    ok1 := m1.Allocate(name, size);
    ok2 := m2.Allocate(name, size);
  }

  /**
   * Release agrees whatever the strategy: both postconditions only fix the
   * owned blocks, and LayoutDetermined shows these fix the whole layout.
   */
  method DeallocateAgrees(m1: Tarea1.MemoryManager, m2: Tarea2.MemoryManager, name: string)
    returns (ok1: bool, ok2: bool)
    requires m1.Valid() && m2.Valid() && SameState(m1, m2)
    modifies m1, m2
    ensures ok1 == ok2
    ensures SameState(m1, m2) && m1.Valid() && m2.Valid()
  {
    ok1 := m1.Deallocate(name);
    ok2 := m2.Deallocate(name);
    if ok1 {
      LayoutDetermined(m1.blocks, m2.blocks, 0, m1.totalMemory);
    }
  }
}
