/**
 * The runs of the address space shared by both versions of the memory
 * manager: a run is a start, a size, an owner ("" while free) and a free
 * flag.  This module holds what is said about sequences of runs as plain
 * values: their owned runs, the removal of one owner, and their total size.
 */
module Blocks {

  /** One run of the address space; `owner` is "" while the run is free. */
  datatype Block = Block(start: int, size: int, owner: string, isFree: bool)

  /** The first address past `b`. */
  function End(b: Block): int {
    b.start + b.size
  }

  // ---------------------------------------------------------------------
  // The allocated runs, in address order
  // ---------------------------------------------------------------------

  /** The owned runs of `bs`, in order. */
  function Allocated(bs: seq<Block>): seq<Block> {
    if bs == [] then [] else (if bs[0].isFree then [] else [bs[0]]) + Allocated(bs[1..])
  }

  lemma {:induction false} AllocatedConcat(a: seq<Block>, b: seq<Block>)
    ensures Allocated(a + b) == Allocated(a) + Allocated(b)
    decreases |a|
  {
    if a == [] {
      assert a + b == b;
    } else {
      assert (a + b)[1..] == a[1..] + b;
      AllocatedConcat(a[1..], b);
    }
  }

  /** The owned runs of a list in three parts are those of each part, in order. */
  lemma AllocatedJoin(a: seq<Block>, m: seq<Block>, c: seq<Block>)
    ensures Allocated(a + m + c) == Allocated(a) + Allocated(m) + Allocated(c)
  {
    AllocatedConcat(a + m, c);
    AllocatedConcat(a, m);
  }

  /** A free run between two stretches contributes nothing to the owned runs. */
  lemma AllocatedSkipsFree(s: seq<Block>, a: seq<Block>, b: Block, c: seq<Block>)
    requires s == a + [b] + c && b.isFree
    ensures Allocated(s) == Allocated(a) + Allocated(c)
  {
    AllocatedConcat(a + [b], c);
    AllocatedConcat(a, [b]);
    assert Allocated([b]) == [] by {
      assert [b][1..] == [];
    }
    assert Allocated(a) + [] == Allocated(a);
  }

  /** Two free runs between two stretches contribute nothing to the owned runs. */
  lemma AllocatedSkipsTwoFree(s: seq<Block>, a: seq<Block>, b1: Block, b2: Block, c: seq<Block>)
    requires s == a + [b1, b2] + c && b1.isFree && b2.isFree
    ensures Allocated(s) == Allocated(a) + Allocated(c)
  {
    AllocatedConcat(a + [b1, b2], c);
    AllocatedConcat(a, [b1, b2]);
    assert [b1, b2] == [b1] + [b2];
    AllocatedConcat([b1], [b2]);
    assert Allocated([b1]) == [] by {
      assert [b1][1..] == [];
    }
    assert Allocated([b2]) == [] by {
      assert [b2][1..] == [];
    }
    assert Allocated(a) + ([] + []) == Allocated(a);
  }

  /** An owned run between two stretches contributes itself, in place. */
  lemma AllocatedKeepsOwned(s: seq<Block>, a: seq<Block>, b: Block, c: seq<Block>)
    requires s == a + [b] + c && !b.isFree
    ensures Allocated(s) == Allocated(a) + [b] + Allocated(c)
  {
    AllocatedConcat(a + [b], c);
    AllocatedConcat(a, [b]);
    assert Allocated([b]) == [b] by {
      assert [b][1..] == [];
    }
  }

  /** A block is among the allocated runs exactly when it is an owned run of `bs`. */
  lemma {:induction false} AllocatedMember(bs: seq<Block>, x: Block)
    ensures x in Allocated(bs) <==> exists i :: 0 <= i < |bs| && bs[i] == x && !x.isFree
    decreases |bs|
  {
    if bs != [] {
      AllocatedMember(bs[1..], x);
      if x in Allocated(bs[1..]) {
        var i :| 0 <= i < |bs[1..]| && bs[1..][i] == x && !x.isFree;
        assert bs[i + 1] == x;
      }
      if exists i :: 0 <= i < |bs| && bs[i] == x && !x.isFree {
        var i :| 0 <= i < |bs| && bs[i] == x && !x.isFree;
        if i > 0 {
          assert bs[1..][i - 1] == x;
        }
      }
    }
  }

  /** The runs of `s` not owned by `name`. */
  function ExceptOwner(s: seq<Block>, name: string): seq<Block> {
    if s == [] then [] else (if s[0].owner == name then [] else [s[0]]) + ExceptOwner(s[1..], name)
  }

  lemma {:induction false} ExceptOwnerConcat(a: seq<Block>, b: seq<Block>, name: string)
    ensures ExceptOwner(a + b, name) == ExceptOwner(a, name) + ExceptOwner(b, name)
    decreases |a|
  {
    if a == [] {
      assert a + b == b;
    } else {
      assert (a + b)[1..] == a[1..] + b;
      ExceptOwnerConcat(a[1..], b, name);
    }
  }

  lemma {:induction false} ExceptOwnerAbsent(s: seq<Block>, name: string)
    requires forall x :: x in s ==> x.owner != name
    ensures ExceptOwner(s, name) == s
    decreases |s|
  {
    if s != [] {
      assert s[0] in s;
      assert forall x :: x in s[1..] ==> x in s;
      ExceptOwnerAbsent(s[1..], name);
    }
  }

  /** Removing a name that owns no run of `s` leaves the owned runs of `s` as they are. */
  lemma OwnerAbsent(s: seq<Block>, name: string)
    requires forall j :: 0 <= j < |s| && !s[j].isFree ==> s[j].owner != name
    ensures ExceptOwner(Allocated(s), name) == Allocated(s)
  {
    forall x | x in Allocated(s)
      ensures x.owner != name
    {
      AllocatedMember(s, x);
    }
    ExceptOwnerAbsent(Allocated(s), name);
  }

  /** Removing `name` from runs where only the middle one is its own drops exactly that one. */
  lemma ExceptOwnerDropsOne(s: seq<Block>, p: seq<Block>, x: Block, q: seq<Block>, name: string)
    requires s == p + [x] + q && x.owner == name && ExceptOwner(p, name) == p && ExceptOwner(q, name) == q
    ensures ExceptOwner(s, name) == p + q
  {
    ExceptOwnerConcat(p + [x], q, name);
    ExceptOwnerConcat(p, [x], name);
    assert ExceptOwner([x], name) == [] by {
      assert [x][1..] == [];
    }
    assert p + [] == p;
  }

  // ---------------------------------------------------------------------
  // Total size
  // ---------------------------------------------------------------------

  /** The sum of the run sizes, added up from the front. */
  function SumSizes(bs: seq<Block>): int {
    if bs == [] then 0 else SumSizes(bs[..|bs| - 1]) + bs[|bs| - 1].size
  }

  lemma {:induction false} SumSizesConcat(a: seq<Block>, b: seq<Block>)
    ensures SumSizes(a + b) == SumSizes(a) + SumSizes(b)
    decreases |b|
  {
    if b == [] {
      assert a + b == a;
    } else {
      assert (a + b)[..|a + b| - 1] == a + b[..|b| - 1];
      SumSizesConcat(a, b[..|b| - 1]);
    }
  }
}
