/**
 * The split of allocate_block as a function on the block list, and the
 * proof that it keeps the invariant and adds exactly one owned run.
 */
module Allocation {
  import opened Blocks
  import opened Layout

  /**
   * What the free run `b` becomes when `name` takes `size` units of it: an
   * owned run of exactly `size` at the old start, followed by the rest of
   * `b` when something is left.
   */
  function Carve(b: Block, name: string, size: int): seq<Block> {
    var used := Block(b.start, size, name, false);
    if b.size - size > 0 then [used, b.(start := b.start + size, size := b.size - size)] else [used]
  }

  /** The list after the free run at `k` is carved for `name`. */
  function Place(bs: seq<Block>, k: nat, name: string, size: int): seq<Block>
    requires k < |bs|
  {
    bs[..k] + Carve(bs[k], name, size) + bs[k + 1..]
  }

  /** allocate_block's two ways of writing the split (insert before the shrunk run, or overwrite it) both give Place. */
  lemma SplitIsPlace(bs: seq<Block>, k: nat, name: string, size: int)
    requires k < |bs|
    ensures var used := Block(bs[k].start, size, name, false);
            var rest := bs[k].(start := bs[k].start + size, size := bs[k].size - size);
            && (bs[k].size - size > 0 ==> bs[..k] + [used, rest] + bs[k + 1..] == Place(bs, k, name, size))
            && (bs[k].size - size <= 0 ==> bs[k := used] == Place(bs, k, name, size))
  {
  }

  /**
   * The shape of Place, run by run: the runs before `k` and after it are
   * untouched, `k` holds the owned run, and the remainder follows only when
   * the chosen run was larger than the request.
   */
  lemma PlaceShape(bs: seq<Block>, k: nat, name: string, size: int)
    requires k < |bs|
    ensures var r := Place(bs, k, name, size);
            var d := if bs[k].size > size then 1 else 0;
            && |r| == |bs| + d
            && (forall j :: 0 <= j < k ==> r[j] == bs[j])
            && r[k] == Block(bs[k].start, size, name, false)
            && (d == 1 ==> r[k + 1] == Block(bs[k].start + size, bs[k].size - size, bs[k].owner, bs[k].isFree))
            && (forall j :: k < j < |bs| ==> r[j + d] == bs[j])
  {
    var r := Place(bs, k, name, size);
    var m := Carve(bs[k], name, size);
    assert forall j :: k < j < |bs| ==> r[j + |m| - 1] == bs[j];
  }

  lemma PlaceTiling(bs: seq<Block>, lo: int, hi: int, k: nat, name: string, size: int)
    requires Tiling(bs, lo, hi) && k < |bs| && 0 < size <= bs[k].size
    ensures Tiling(Place(bs, k, name, size), lo, hi)
  {
    var m := Carve(bs[k], name, size);
    assert Tiling(m, bs[k].start, End(bs[k]));
    SpliceTiling(bs, lo, hi, k, k + 1, m);
  }

  lemma PlaceCoalesced(bs: seq<Block>, k: nat, name: string, size: int)
    requires Coalesced(bs) && FreeUnowned(bs) && k < |bs| && bs[k].isFree
    ensures Coalesced(Place(bs, k, name, size)) && FreeUnowned(Place(bs, k, name, size))
  {
    var r := Place(bs, k, name, size);
    var d := if bs[k].size > size then 1 else 0;
    PlaceShape(bs, k, name, size);
    forall j | 0 <= j < |r| - 1
      ensures !(r[j].isFree && r[j + 1].isFree)
    {
      if j > k + d {
        assert r[j] == bs[j - d] && r[j + 1] == bs[j + 1 - d];
      } else if j == k + d {
        assert r[j + 1] == bs[k + 1];
      }
    }
    forall j | 0 <= j < |r| && r[j].isFree
      ensures r[j].owner == ""
    {
      if j > k + d {
        assert r[j] == bs[j - d];
      }
    }
  }

  /** Every owned run after placing is in the extended index, at its start. */
  lemma PlaceIndexOwners(bs: seq<Block>, locations: map<string, int>, k: nat, name: string, size: int)
    requires IndexMatches(bs, locations) && k < |bs| && bs[k].isFree && name !in locations
    ensures var r := Place(bs, k, name, size);
            var locs := locations[name := bs[k].start];
            forall j :: 0 <= j < |r| && !r[j].isFree ==> r[j].owner in locs && locs[r[j].owner] == r[j].start
  {
    var r := Place(bs, k, name, size);
    var d := if bs[k].size > size then 1 else 0;
    PlaceShape(bs, k, name, size);
    forall j | 0 <= j < |r| && !r[j].isFree
      ensures r[j].owner in locations[name := bs[k].start]
      ensures locations[name := bs[k].start][r[j].owner] == r[j].start
    {
      if j > k + d {
        assert r[j] == bs[j - d];
      }
    }
  }

  /** Every entry of the extended index names an owned run that starts there after placing. */
  lemma PlaceIndexEntries(bs: seq<Block>, locations: map<string, int>, k: nat, name: string, size: int)
    requires IndexMatches(bs, locations) && k < |bs| && bs[k].isFree && name !in locations
    ensures var r := Place(bs, k, name, size);
            var locs := locations[name := bs[k].start];
            forall n :: n in locs ==> exists j :: 0 <= j < |r| && !r[j].isFree && r[j].owner == n && r[j].start == locs[n]
  {
    var r := Place(bs, k, name, size);
    var locs := locations[name := bs[k].start];
    var d := if bs[k].size > size then 1 else 0;
    PlaceShape(bs, k, name, size);
    forall n | n in locs
      ensures exists j :: 0 <= j < |r| && !r[j].isFree && r[j].owner == n && r[j].start == locs[n]
    {
      if n == name {
        assert r[k].owner == n;
      } else {
        var i :| 0 <= i < |bs| && !bs[i].isFree && bs[i].owner == n && bs[i].start == locations[n];
        if i < k {
          assert r[i] == bs[i];
        } else {
          assert r[i + d] == bs[i];
        }
      }
    }
  }

  lemma PlaceIndex(bs: seq<Block>, locations: map<string, int>, k: nat, name: string, size: int)
    requires IndexMatches(bs, locations) && k < |bs| && bs[k].isFree && name !in locations
    ensures IndexMatches(Place(bs, k, name, size), locations[name := bs[k].start])
  {
    PlaceIndexOwners(bs, locations, k, name, size);
    PlaceIndexEntries(bs, locations, k, name, size);
  }

  /** Placing a process in a free run that fits keeps the invariant and records the run's start in the index. */
  lemma PlaceWellformed(bs: seq<Block>, locations: map<string, int>, total: int, k: nat, name: string, size: int)
    requires Wellformed(bs, locations, total)
    requires k < |bs| && bs[k].isFree && 0 < size <= bs[k].size && name !in locations
    ensures Wellformed(Place(bs, k, name, size), locations[name := bs[k].start], total)
  {
    PlaceTiling(bs, 0, total, k, name, size);
    PlaceCoalesced(bs, k, name, size);
    PlaceIndex(bs, locations, k, name, size);
  }

  /** Carving a free run yields exactly one owned run. */
  lemma CarveAllocated(b: Block, name: string, size: int)
    requires b.isFree
    ensures Allocated(Carve(b, name, size)) == [Block(b.start, size, name, false)]
  {
    var m := Carve(b, name, size);
    if b.size - size > 0 {
      var rest := b.(start := b.start + size, size := b.size - size);
      assert m[1..] == [rest];
      assert [rest][1..] == [];
      assert Allocated([rest]) == [] + Allocated([]);
    } else {
      assert m[1..] == [];
    }
  }

  /** A free run contributes nothing to the owned runs. */
  lemma AllocatedAroundFree(bs: seq<Block>, k: nat)
    requires k < |bs| && bs[k].isFree
    ensures Allocated(bs) == Allocated(bs[..k]) + Allocated(bs[k + 1..])
  {
    assert bs == bs[..k] + [bs[k]] + bs[k + 1..];
    AllocatedSkipsFree(bs, bs[..k], bs[k], bs[k + 1..]);
  }

  /** Placing adds exactly one owned run, of `size` units for `name`, between the owned runs before and after it. */
  lemma PlaceAllocated(bs: seq<Block>, k: nat, name: string, size: int)
    requires k < |bs| && bs[k].isFree
    ensures Allocated(bs) == Allocated(bs[..k]) + Allocated(bs[k + 1..])
    ensures Allocated(Place(bs, k, name, size))
         == Allocated(bs[..k]) + [Block(bs[k].start, size, name, false)] + Allocated(bs[k + 1..])
  {
    AllocatedAroundFree(bs, k);
    AllocatedJoin(bs[..k], Carve(bs[k], name, size), bs[k + 1..]);
    CarveAllocated(bs[k], name, size);
  }
}
