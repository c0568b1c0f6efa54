/** The counters of show_statistics. */
module Stats {
  import opened Blocks

  datatype Statistics = Statistics(freeMemory: int, usedMemory: int, freeBlocks: int, usedBlocks: int)

  /** The counters of show_statistics over `bs`, accumulated from the front. */
  function Tally(bs: seq<Block>): (st: Statistics)
    ensures st.freeMemory + st.usedMemory == SumSizes(bs)
    ensures st.freeBlocks + st.usedBlocks == |bs|
  {
    if bs == [] then Statistics(0, 0, 0, 0)
    else
      var st := Tally(bs[..|bs| - 1]);
      var b := bs[|bs| - 1];
      if b.isFree then st.(freeMemory := st.freeMemory + b.size, freeBlocks := st.freeBlocks + 1)
      else st.(usedMemory := st.usedMemory + b.size, usedBlocks := st.usedBlocks + 1)
  }

  /** The used side of the statistics is the owned runs: their number and their total size. */
  lemma {:induction false} TallyUsed(bs: seq<Block>)
    ensures Tally(bs).usedBlocks == |Allocated(bs)|
    ensures Tally(bs).usedMemory == SumSizes(Allocated(bs))
    decreases |bs|
  {
    if bs != [] {
      var p := bs[..|bs| - 1];
      var b := bs[|bs| - 1];
      TallyUsed(p);
      assert bs == p + [b];
      AllocatedConcat(p, [b]);
      assert Allocated([b]) == (if b.isFree then [] else [b]) by {
        assert [b][1..] == [];
      }
      SumSizesConcat(Allocated(p), Allocated([b]));
      assert SumSizes([b]) == b.size by {
        assert [b][..0] == [];
      }
    }
  }

  /** show_statistics' counting loop. */
  method CountBlocks(bs: seq<Block>) returns (st: Statistics)
    ensures st == Tally(bs)
    ensures st.usedBlocks == |Allocated(bs)| && st.usedMemory == SumSizes(Allocated(bs))
  {
    st := Statistics(0, 0, 0, 0);
    for i := 0 to |bs|
      invariant st == Tally(bs[..i])
    {
      assert bs[..i + 1][..i] == bs[..i];
      if bs[i].isFree {
        st := st.(freeMemory := st.freeMemory + bs[i].size, freeBlocks := st.freeBlocks + 1);
      } else {
        st := st.(usedMemory := st.usedMemory + bs[i].size, usedBlocks := st.usedBlocks + 1);
      }
    }
    assert bs[..|bs|] == bs;
    TallyUsed(bs);
  }
}
