/**
 * Release: deallocate's in-place flip of the owner's run, and
 * merge_free_blocks' scan that folds neighbouring free runs together.
 */
module Release {
  import opened Blocks
  import opened Layout

  // ---------------------------------------------------------------------
  // Freeing the owner's run
  // ---------------------------------------------------------------------

  /** The run at `i` marked free, its owner cleared (deallocate's in-place flip). */
  function FreeRun(bs: seq<Block>, i: nat): seq<Block>
    requires i < |bs|
  {
    bs[i := bs[i].(isFree := true, owner := "")]
  }

  /** Freeing the run a process owns keeps the tiling, and every other index entry stays valid. */
  lemma FreeRunIndex(bs: seq<Block>, locations: map<string, int>, total: int, i: nat, name: string)
    requires Wellformed(bs, locations, total)
    requires i < |bs| && !bs[i].isFree && bs[i].owner == name
    ensures Tiling(FreeRun(bs, i), 0, total) && FreeUnowned(FreeRun(bs, i))
    ensures IndexMatches(FreeRun(bs, i), locations - {name})
  {
    var r := FreeRun(bs, i);
    var locs := locations - {name};
    forall j | 0 <= j < |r| && !r[j].isFree
      ensures r[j].owner in locs && locs[r[j].owner] == r[j].start
    {
      if r[j].owner == name {
        OwnersUnique(bs, locations, total, i, j);
      }
    }
    forall n | n in locs
      ensures exists j :: 0 <= j < |r| && !r[j].isFree && r[j].owner == n && r[j].start == locs[n]
    {
      var j :| 0 <= j < |bs| && !bs[j].isFree && bs[j].owner == n && bs[j].start == locations[n];
      assert r[j] == bs[j];
    }
  }

  /** Freeing the only run `name` owns removes exactly that process from the owned runs. */
  lemma FreeRunAllocated(bs: seq<Block>, i: nat, name: string)
    requires i < |bs| && !bs[i].isFree && bs[i].owner == name
    requires forall j :: 0 <= j < |bs| && j != i && !bs[j].isFree ==> bs[j].owner != name
    ensures Allocated(FreeRun(bs, i)) == ExceptOwner(Allocated(bs), name)
  {
    var a := bs[..i];
    var c := bs[i + 1..];
    var freed := bs[i].(isFree := true, owner := "");
    assert bs == a + [bs[i]] + c;
    assert FreeRun(bs, i) == a + [freed] + c;
    AllocatedKeepsOwned(bs, a, bs[i], c);
    AllocatedSkipsFree(FreeRun(bs, i), a, freed, c);
    assert forall j :: 0 <= j < |a| ==> a[j] == bs[j];
    OwnerAbsent(a, name);
    assert forall j :: 0 <= j < |c| ==> c[j] == bs[i + 1 + j];
    OwnerAbsent(c, name);
    ExceptOwnerDropsOne(Allocated(bs), Allocated(a), bs[i], Allocated(c), name);
  }

  // ---------------------------------------------------------------------
  // merge_free_blocks
  // ---------------------------------------------------------------------

  /** One merge of the runs at `i` and `i + 1`: the first grows by the size of the second, which disappears. */
  function MergeAt(bs: seq<Block>, i: nat): seq<Block>
    requires i + 1 < |bs|
  {
    bs[..i] + [bs[i].(size := bs[i].size + bs[i + 1].size)] + bs[i + 2..]
  }

  lemma MergeAtTiling(bs: seq<Block>, lo: int, hi: int, i: nat)
    requires Tiling(bs, lo, hi) && i + 1 < |bs|
    ensures Tiling(MergeAt(bs, i), lo, hi)
  {
    var m := bs[i].(size := bs[i].size + bs[i + 1].size);
    assert End(bs[i]) == bs[i + 1].start;
    assert Tiling([m], bs[i].start, End(bs[i + 1]));
    SpliceTiling(bs, lo, hi, i, i + 2, [m]);
  }

  lemma MergeAtAllocated(bs: seq<Block>, i: nat)
    requires i + 1 < |bs| && bs[i].isFree && bs[i + 1].isFree
    ensures Allocated(MergeAt(bs, i)) == Allocated(bs)
  {
    var a := bs[..i];
    var c := bs[i + 2..];
    var m := bs[i].(size := bs[i].size + bs[i + 1].size);
    assert bs == a + [bs[i], bs[i + 1]] + c;
    AllocatedSkipsTwoFree(bs, a, bs[i], bs[i + 1], c);
    AllocatedSkipsFree(MergeAt(bs, i), a, m, c);
  }

  lemma MergeAtFacts(bs: seq<Block>, lo: int, hi: int, i: nat)
    requires Tiling(bs, lo, hi) && i + 1 < |bs| && bs[i].isFree && bs[i + 1].isFree
    ensures Tiling(MergeAt(bs, i), lo, hi)
    ensures Allocated(MergeAt(bs, i)) == Allocated(bs)
    ensures FreeUnowned(bs) ==> FreeUnowned(MergeAt(bs, i))
    ensures |MergeAt(bs, i)| == |bs| - 1
    ensures forall j :: 0 <= j < i ==> MergeAt(bs, i)[j] == bs[j]
    ensures MergeAt(bs, i)[i].isFree
  {
    MergeAtTiling(bs, lo, hi, i);
    MergeAtAllocated(bs, i);
    var r := MergeAt(bs, i);
    assert forall j :: i < j < |r| ==> r[j] == bs[j + 1];
  }

  /**
   * merge_free_blocks: scans the list once, and while the run at the scan
   * position and the next one are both free and adjacent, folds the second
   * into the first; otherwise moves on.  The sort by start that precedes the
   * scan is the identity on a tiling (TilingOrder).
   */
  method MergeFreeBlocks(bs: seq<Block>, ghost total: int) returns (r: seq<Block>)
    requires Tiling(bs, 0, total)
    ensures Tiling(r, 0, total) && Coalesced(r)
    ensures Allocated(r) == Allocated(bs)
    ensures FreeUnowned(bs) ==> FreeUnowned(r)
  {
    r := bs;
    var i := 0;
    while i < |r| - 1
      invariant 0 <= i < |r|
      invariant Tiling(r, 0, total)
      invariant Allocated(r) == Allocated(bs)
      invariant FreeUnowned(bs) ==> FreeUnowned(r)
      invariant forall j :: 0 <= j < i ==> !(r[j].isFree && r[j + 1].isFree)
      decreases |r| - i
    {
      if r[i].isFree && r[i + 1].isFree && End(r[i]) == r[i + 1].start {
        MergeAtFacts(r, 0, total, i);
        r := MergeAt(r, i);
      } else {
        assert End(r[i]) == r[i + 1].start;
        i := i + 1;
      }
    }
  }
}
