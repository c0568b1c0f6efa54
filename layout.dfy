/**
 * The invariant of the block list: the runs tile [0, total) in address
 * order, no two free runs touch, free runs carry no name, and the process
 * index names exactly the owned runs and their starts.  Also: such a list is
 * determined by its owned runs.
 */
module Layout {
  import opened Blocks

  /** `bs` covers [lo, hi) with runs of positive size, each starting where the previous one ends. */
  ghost predicate Tiling(bs: seq<Block>, lo: int, hi: int) {
    && |bs| > 0
    && bs[0].start == lo
    && End(bs[|bs| - 1]) == hi
    && (forall i :: 0 <= i < |bs| ==> bs[i].size > 0)
    && (forall i :: 0 <= i < |bs| - 1 ==> End(bs[i]) == bs[i + 1].start)
  }

  /** No two neighbouring runs are both free. */
  ghost predicate Coalesced(bs: seq<Block>) {
    forall i :: 0 <= i < |bs| - 1 ==> !(bs[i].isFree && bs[i + 1].isFree)
  }

  /** A free run carries no process name. */
  ghost predicate FreeUnowned(bs: seq<Block>) {
    forall i :: 0 <= i < |bs| && bs[i].isFree ==> bs[i].owner == ""
  }

  /** The index has an entry for a name exactly when a run owned by that name exists, and it holds that run's start. */
  ghost predicate IndexMatches(bs: seq<Block>, locations: map<string, int>) {
    && (forall i :: 0 <= i < |bs| && !bs[i].isFree ==>
          bs[i].owner in locations && locations[bs[i].owner] == bs[i].start)
    && (forall name :: name in locations ==>
          exists i :: 0 <= i < |bs| && !bs[i].isFree && bs[i].owner == name && bs[i].start == locations[name])
  }

  /** The state invariant of a memory manager of `total` units. */
  ghost predicate Wellformed(bs: seq<Block>, locations: map<string, int>, total: int) {
    && Tiling(bs, 0, total)
    && Coalesced(bs)
    && FreeUnowned(bs)
    && IndexMatches(bs, locations)
  }

  // ---------------------------------------------------------------------
  // Order and size of a tiling
  // ---------------------------------------------------------------------

  /** A tiling is sorted by start: a later run begins at or after the end of an earlier one. */
  lemma {:induction false} TilingOrder(bs: seq<Block>, lo: int, hi: int, i: int, j: int)
    requires Tiling(bs, lo, hi) && 0 <= i < j < |bs|
    ensures End(bs[i]) <= bs[j].start
    decreases j - i
  {
    if j > i + 1 {
      TilingOrder(bs, lo, hi, i, j - 1);
      assert End(bs[j - 1]) == bs[j].start;
    }
  }

  /** Every run of a tiling of [lo, hi) lies inside [lo, hi). */
  lemma TilingBounds(bs: seq<Block>, lo: int, hi: int, i: int)
    requires Tiling(bs, lo, hi) && 0 <= i < |bs|
    ensures lo <= bs[i].start && End(bs[i]) <= hi
  {
    if 0 < i {
      TilingOrder(bs, lo, hi, 0, i);
    }
    if i < |bs| - 1 {
      TilingOrder(bs, lo, hi, i, |bs| - 1);
    }
  }

  /** Removing the first run of a tiling leaves a tiling of the rest of the range. */
  lemma TilingTail(bs: seq<Block>, lo: int, hi: int)
    requires Tiling(bs, lo, hi) && |bs| > 1
    ensures Tiling(bs[1..], End(bs[0]), hi)
  {
    assert End(bs[0]) == bs[1].start;
  }

  lemma {:induction false} PrefixSum(bs: seq<Block>, lo: int, hi: int, k: int)
    requires Tiling(bs, lo, hi) && 0 < k <= |bs|
    ensures SumSizes(bs[..k]) == End(bs[k - 1]) - lo
    decreases k
  {
    assert bs[..k][..k - 1] == bs[..k - 1];
    if k > 1 {
      PrefixSum(bs, lo, hi, k - 1);
      assert End(bs[k - 2]) == bs[k - 1].start;
    } else {
      assert bs[..0] == [];
    }
  }

  /** The sizes of a tiling of [lo, hi) add up to hi - lo. */
  lemma TilingSum(bs: seq<Block>, lo: int, hi: int)
    requires Tiling(bs, lo, hi)
    ensures SumSizes(bs) == hi - lo
  {
    PrefixSum(bs, lo, hi, |bs|);
    assert bs[..|bs|] == bs;
  }

  /** Replacing the runs bs[k..l] by runs that tile the same addresses keeps the tiling. */
  lemma SpliceTiling(bs: seq<Block>, lo: int, hi: int, k: nat, l: nat, m: seq<Block>)
    requires Tiling(bs, lo, hi) && k < l <= |bs|
    requires Tiling(m, bs[k].start, End(bs[l - 1]))
    ensures Tiling(bs[..k] + m + bs[l..], lo, hi)
  {
    var r := bs[..k] + m + bs[l..];
    var e := k + |m|;
    assert |r| == e + |bs| - l;
    assert forall j :: 0 <= j < k ==> r[j] == bs[j];
    assert forall j :: k <= j < e ==> r[j] == m[j - k];
    assert forall j :: e <= j < |r| ==> r[j] == bs[j - e + l];
    forall j | 0 <= j < |r| - 1
      ensures End(r[j]) == r[j + 1].start
    {
      if j < k - 1 {
        assert End(bs[j]) == bs[j + 1].start;
      } else if j == k - 1 {
        assert End(bs[j]) == bs[j + 1].start;
      } else if j < e - 1 {
        assert End(m[j - k]) == m[j - k + 1].start;
      } else if j == e - 1 {
        assert End(bs[l - 1]) == bs[l].start;
      } else {
        assert End(bs[j - e + l]) == bs[j - e + l + 1].start;
      }
    }
    forall j | 0 <= j < |r|
      ensures r[j].size > 0
    {
      if j >= e {
        assert r[j] == bs[j - e + l];
      }
    }
    if k == 0 {
      assert r[0] == m[0];
    }
    if l < |bs| {
      assert r[|r| - 1] == bs[|bs| - 1];
    } else {
      assert r[|r| - 1] == m[|m| - 1];
    }
  }

  // ---------------------------------------------------------------------
  // The index
  // ---------------------------------------------------------------------

  /** The index condition only looks at the allocated runs: two lists with the same ones agree on it. */
  lemma IndexTransfer(a: seq<Block>, b: seq<Block>, locations: map<string, int>)
    requires Allocated(a) == Allocated(b) && IndexMatches(a, locations)
    ensures IndexMatches(b, locations)
  {
    forall i | 0 <= i < |b| && !b[i].isFree
      ensures b[i].owner in locations && locations[b[i].owner] == b[i].start
    {
      AllocatedMember(b, b[i]);
      AllocatedMember(a, b[i]);
    }
    forall name | name in locations
      ensures exists i :: 0 <= i < |b| && !b[i].isFree && b[i].owner == name && b[i].start == locations[name]
    {
      var j :| 0 <= j < |a| && !a[j].isFree && a[j].owner == name && a[j].start == locations[name];
      AllocatedMember(a, a[j]);
      AllocatedMember(b, a[j]);
      var i :| 0 <= i < |b| && b[i] == a[j] && !a[j].isFree;
      assert b[i].owner == name;
    }
  }

  /** Under the invariant a name owns at most one run. */
  lemma OwnersUnique(bs: seq<Block>, locations: map<string, int>, total: int, i: int, j: int)
    requires Wellformed(bs, locations, total)
    requires 0 <= i < |bs| && 0 <= j < |bs| && !bs[i].isFree && !bs[j].isFree
    requires bs[i].owner == bs[j].owner
    ensures i == j
  {
    if i < j {
      TilingOrder(bs, 0, total, i, j);
    } else if j < i {
      TilingOrder(bs, 0, total, j, i);
    }
  }

  /** Under the invariant no owned run other than run `i` belongs to the owner of run `i`. */
  lemma SoleOwner(bs: seq<Block>, locations: map<string, int>, total: int, i: nat)
    requires Wellformed(bs, locations, total)
    requires i < |bs| && !bs[i].isFree
    ensures forall j :: 0 <= j < |bs| && j != i && !bs[j].isFree ==> bs[j].owner != bs[i].owner
  {
    forall j | 0 <= j < |bs| && j != i && !bs[j].isFree
      ensures bs[j].owner != bs[i].owner
    {
      if bs[j].owner == bs[i].owner {
        OwnersUnique(bs, locations, total, i, j);
      }
    }
  }

  // ---------------------------------------------------------------------
  // The layout is determined by the owned runs
  // ---------------------------------------------------------------------

  /** Where the first owned run of a coalesced tiling sits: first, or right after one free run. */
  lemma FirstAllocated(bs: seq<Block>, lo: int, hi: int)
    requires Tiling(bs, lo, hi) && Coalesced(bs)
    ensures !bs[0].isFree ==> Allocated(bs) != [] && Allocated(bs)[0] == bs[0]
    ensures bs[0].isFree && Allocated(bs) == [] ==> |bs| == 1
    ensures bs[0].isFree && Allocated(bs) != [] ==>
              |bs| > 1 && !bs[1].isFree && Allocated(bs)[0] == bs[1] && Allocated(bs[1..]) == Allocated(bs)
  {
    if bs[0].isFree {
      assert Allocated(bs) == Allocated(bs[1..]);
      if |bs| > 1 {
        assert !bs[1].isFree;
        assert bs[1..][0] == bs[1];
        assert Allocated(bs[1..]) == [bs[1]] + Allocated(bs[1..][1..]);
      } else {
        assert bs[1..] == [];
      }
    }
  }

  /** Two such tilings with the same owned runs start with the same run, and continue with the same owned runs. */
  lemma HeadsAgree(a: seq<Block>, b: seq<Block>, lo: int, hi: int)
    requires Tiling(a, lo, hi) && Coalesced(a) && FreeUnowned(a)
    requires Tiling(b, lo, hi) && Coalesced(b) && FreeUnowned(b)
    requires Allocated(a) == Allocated(b)
    ensures a[0] == b[0] && (|a| == 1 <==> |b| == 1)
    ensures |a| > 1 ==> Allocated(a[1..]) == Allocated(b[1..])
  {
    FirstAllocated(a, lo, hi);
    FirstAllocated(b, lo, hi);
    if |a| > 1 {
      TilingOrder(a, lo, hi, 0, 1);
      TilingBounds(a, lo, hi, 1);
    }
    if |b| > 1 {
      TilingOrder(b, lo, hi, 0, 1);
      TilingBounds(b, lo, hi, 1);
    }
    if Allocated(a) != [] {
      if !a[0].isFree {
        assert a[0] == b[0];
        if |a| > 1 && |b| > 1 {
          assert Allocated(a[1..]) == Allocated(a)[1..];
          assert Allocated(b[1..]) == Allocated(b)[1..];
        }
      } else {
        assert a[1] == b[1];
      }
    }
  }

  /**
   * Two coalesced tilings of the same range, whose free runs carry no name,
   * are equal as soon as they have the same owned runs: the free runs are
   * exactly the gaps between them.
   */
  lemma {:induction false} LayoutDetermined(a: seq<Block>, b: seq<Block>, lo: int, hi: int)
    requires Tiling(a, lo, hi) && Coalesced(a) && FreeUnowned(a)
    requires Tiling(b, lo, hi) && Coalesced(b) && FreeUnowned(b)
    requires Allocated(a) == Allocated(b)
    ensures a == b
    decreases |a|
  {
    HeadsAgree(a, b, lo, hi);
    if |a| > 1 {
      TilingTail(a, lo, hi);
      TilingTail(b, lo, hi);
      LayoutDetermined(a[1..], b[1..], End(a[0]), hi);
      assert a == [a[0]] + a[1..] && b == [b[0]] + b[1..];
    } else {
      assert a == [a[0]] && b == [b[0]];
    }
  }

  /** Once no process holds memory, the whole space is one free run (the state the manager starts in). */
  lemma EmptyIndexIsWholeSpace(bs: seq<Block>, total: int)
    requires Wellformed(bs, map[], total)
    ensures bs == [Block(0, total, "", true)]
  {
    FirstAllocated(bs, 0, total);
  }
}
