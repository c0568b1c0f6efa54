/**
 * The three placement strategies of tarea2.cpp and the choice each makes
 * among the free runs that can hold a request, including how ties are
 * broken; the command-level mapping of ALG 1/2/3; and the INT_MAX sentinel
 * that the best-fit scan starts from.
 */
module Placement {
  import opened Wrappers
  import opened Blocks

  /** AllocationAlgorithm of tarea2.cpp. */
  datatype AllocationAlgorithm = FirstFit | BestFit | WorstFit

  /** A run can take a request of `size` units: it is free and at least that large. */
  predicate Fits(b: Block, size: int) {
    b.isFree && b.size >= size
  }

  // ---------------------------------------------------------------------
  // What each strategy chooses, stated outright
  // ---------------------------------------------------------------------

  /** No run of `bs` can take the request. */
  ghost predicate NoneFits(bs: seq<Block>, size: int) {
    forall j :: 0 <= j < |bs| ==> !Fits(bs[j], size)
  }

  /** `r` is the lowest-index run that fits, or None when none does. */
  ghost predicate IsFirstFit(bs: seq<Block>, size: int, r: Option<nat>) {
    match r
    case None => NoneFits(bs, size)
    case Some(k) =>
      && k < |bs| && Fits(bs[k], size)
      && (forall j :: 0 <= j < k ==> !Fits(bs[j], size))
  }

  /** `r` is a fitting run of least size, the first such in scan order; None when none fits. */
  ghost predicate IsBestFit(bs: seq<Block>, size: int, r: Option<nat>) {
    match r
    case None => NoneFits(bs, size)
    case Some(k) =>
      && k < |bs| && Fits(bs[k], size)
      && (forall j :: 0 <= j < |bs| && Fits(bs[j], size) ==> bs[k].size <= bs[j].size)
      && (forall j :: 0 <= j < k && Fits(bs[j], size) ==> bs[k].size < bs[j].size)
  }

  /** `r` is a fitting run of greatest size, the first such in scan order; None when none fits. */
  ghost predicate IsWorstFit(bs: seq<Block>, size: int, r: Option<nat>) {
    match r
    case None => NoneFits(bs, size)
    case Some(k) =>
      && k < |bs| && Fits(bs[k], size)
      && (forall j :: 0 <= j < |bs| && Fits(bs[j], size) ==> bs[k].size >= bs[j].size)
      && (forall j :: 0 <= j < k && Fits(bs[j], size) ==> bs[k].size > bs[j].size)
  }

  // ---------------------------------------------------------------------
  // The scans, as functions
  // ---------------------------------------------------------------------

  /** allocate_first_fit's scan: the first fitting run from the front. */
  function FirstFitIndex(bs: seq<Block>, size: int): (r: Option<nat>)
    ensures r.Some? ==> r.value < |bs| && Fits(bs[r.value], size)
  {
    if bs == [] then None
    else if Fits(bs[0], size) then Some(0)
    else match FirstFitIndex(bs[1..], size)
      case None => None
      case Some(i) => Some(i + 1)
  }

  /**
   * allocate_best_fit's scan over the runs seen so far: the last run
   * replaces the current choice only when it fits and is strictly smaller.
   */
  function BestFitIndex(bs: seq<Block>, size: int): (r: Option<nat>)
    ensures r.Some? ==> r.value < |bs| && Fits(bs[r.value], size)
  {
    if bs == [] then None
    else
      var r := BestFitIndex(bs[..|bs| - 1], size);
      var k := |bs| - 1;
      if Fits(bs[k], size) && (r.None? || bs[k].size < bs[r.value].size) then Some(k) else r
  }

  /** allocate_worst_fit's scan: as best-fit, but the last run wins when it is strictly larger. */
  function WorstFitIndex(bs: seq<Block>, size: int): (r: Option<nat>)
    ensures r.Some? ==> r.value < |bs| && Fits(bs[r.value], size)
  {
    if bs == [] then None
    else
      var r := WorstFitIndex(bs[..|bs| - 1], size);
      var k := |bs| - 1;
      if Fits(bs[k], size) && (r.None? || bs[k].size > bs[r.value].size) then Some(k) else r
  }

  /** The run the active strategy picks (the switch in allocate). */
  function SelectIndex(alg: AllocationAlgorithm, bs: seq<Block>, size: int): Option<nat> {
    match alg
    case FirstFit => FirstFitIndex(bs, size)
    case BestFit => BestFitIndex(bs, size)
    case WorstFit => WorstFitIndex(bs, size)
  }

  // ---------------------------------------------------------------------
  // The scans choose what the strategies promise
  // ---------------------------------------------------------------------

  lemma {:induction false} FirstFitCorrect(bs: seq<Block>, size: int)
    ensures IsFirstFit(bs, size, FirstFitIndex(bs, size))
    decreases |bs|
  {
    if bs != [] && !Fits(bs[0], size) {
      FirstFitCorrect(bs[1..], size);
      forall j | 1 <= j < |bs| ensures bs[j] == bs[1..][j - 1] { }
    }
  }

  lemma {:induction false} BestFitCorrect(bs: seq<Block>, size: int)
    ensures IsBestFit(bs, size, BestFitIndex(bs, size))
    decreases |bs|
  {
    if bs != [] {
      var p := bs[..|bs| - 1];
      BestFitCorrect(p, size);
      assert forall j :: 0 <= j < |p| ==> p[j] == bs[j];
    }
  }

  lemma {:induction false} WorstFitCorrect(bs: seq<Block>, size: int)
    ensures IsWorstFit(bs, size, WorstFitIndex(bs, size))
    decreases |bs|
  {
    if bs != [] {
      var p := bs[..|bs| - 1];
      WorstFitCorrect(p, size);
      assert forall j :: 0 <= j < |p| ==> p[j] == bs[j];
    }
  }

  /** Each strategy's description admits one answer, so the scans are the only ones meeting it. */
  lemma FirstFitUnique(bs: seq<Block>, size: int, r1: Option<nat>, r2: Option<nat>)
    requires IsFirstFit(bs, size, r1) && IsFirstFit(bs, size, r2)
    ensures r1 == r2
  {
  }

  lemma BestFitUnique(bs: seq<Block>, size: int, r1: Option<nat>, r2: Option<nat>)
    requires IsBestFit(bs, size, r1) && IsBestFit(bs, size, r2)
    ensures r1 == r2
  {
  }

  lemma WorstFitUnique(bs: seq<Block>, size: int, r1: Option<nat>, r2: Option<nat>)
    requires IsWorstFit(bs, size, r1) && IsWorstFit(bs, size, r2)
    ensures r1 == r2
  {
  }

  /**
   * Whatever the strategy, allocation finds a run exactly when some free
   * run is large enough, and the run it finds is free and large enough.
   */
  lemma SelectFindsFit(alg: AllocationAlgorithm, bs: seq<Block>, size: int)
    ensures SelectIndex(alg, bs, size).None? <==> NoneFits(bs, size)
    ensures SelectIndex(alg, bs, size).Some? ==>
              SelectIndex(alg, bs, size).value < |bs| && Fits(bs[SelectIndex(alg, bs, size).value], size)
  {
    match alg
    case FirstFit => FirstFitCorrect(bs, size);
    case BestFit => BestFitCorrect(bs, size);
    case WorstFit => WorstFitCorrect(bs, size);
  }

  /** Best-fit never picks a run larger than first-fit's, and worst-fit never a smaller one. */
  lemma StrategiesOrdered(bs: seq<Block>, size: int)
    ensures FirstFitIndex(bs, size).Some? <==> BestFitIndex(bs, size).Some?
    ensures FirstFitIndex(bs, size).Some? <==> WorstFitIndex(bs, size).Some?
    ensures FirstFitIndex(bs, size).Some? ==>
              && bs[BestFitIndex(bs, size).value].size <= bs[FirstFitIndex(bs, size).value].size
              && bs[FirstFitIndex(bs, size).value].size <= bs[WorstFitIndex(bs, size).value].size
  {
    FirstFitCorrect(bs, size);
    BestFitCorrect(bs, size);
    WorstFitCorrect(bs, size);
  }

  // ---------------------------------------------------------------------
  // Names and the ALG selector
  // ---------------------------------------------------------------------

  /** get_algorithm_name. */
  function Name(alg: AllocationAlgorithm): string {
    match alg
    case FirstFit => "First Fit"
    case BestFit => "Best Fit"
    case WorstFit => "Worst Fit"
  }

  lemma NamesDistinct(a: AllocationAlgorithm, b: AllocationAlgorithm)
    ensures Name(a) == Name(b) <==> a == b
  {
    if a != b {
      assert Name(a)[0] != Name(b)[0];
    }
  }

  /** The number that selects `alg` in the ALG command. */
  function Selector(alg: AllocationAlgorithm): int {
    match alg
    case FirstFit => 1
    case BestFit => 2
    case WorstFit => 3
  }

  /** The ALG command's switch: 1, 2 and 3 name a strategy, any other number none. */
  function FromSelector(n: int): (r: Option<AllocationAlgorithm>)
    ensures r.Some? <==> 1 <= n <= 3
    ensures r.Some? ==> Selector(r.value) == n
  {
    if n == 1 then Some(FirstFit)
    else if n == 2 then Some(BestFit)
    else if n == 3 then Some(WorstFit)
    else None
  }

  lemma SelectorRoundTrip(alg: AllocationAlgorithm)
    ensures FromSelector(Selector(alg)) == Some(alg)
  {
  }

  // ---------------------------------------------------------------------
  // The INT_MAX sentinel of allocate_best_fit
  // ---------------------------------------------------------------------

  const IntMax: int := 0x7fff_ffff

  /**
   * allocate_best_fit as written: the best size seen starts at INT_MAX and a
   * fitting run is taken only when strictly smaller.  Returns the chosen run
   * and the best size after the scan.
   */
  function BestFitAsWritten(bs: seq<Block>, size: int): (Option<nat>, int) {
    if bs == [] then (None, IntMax)
    else
      var r := BestFitAsWritten(bs[..|bs| - 1], size);
      var k := |bs| - 1;
      if Fits(bs[k], size) && bs[k].size < r.1 then (Some(k), bs[k].size) else r
  }

  /**
   * When every free run is smaller than INT_MAX the sentinel is harmless:
   * the scan as written agrees with BestFitIndex.
   */
  lemma {:induction false} BestFitAsWrittenAgrees(bs: seq<Block>, size: int)
    requires forall j :: 0 <= j < |bs| && bs[j].isFree ==> bs[j].size < IntMax
    ensures BestFitAsWritten(bs, size).0 == BestFitIndex(bs, size)
    ensures BestFitIndex(bs, size).None? ==> BestFitAsWritten(bs, size).1 == IntMax
    ensures BestFitIndex(bs, size).Some? ==> BestFitAsWritten(bs, size).1 == bs[BestFitIndex(bs, size).value].size
    decreases |bs|
  {
    if bs != [] {
      var p := bs[..|bs| - 1];
      assert forall j :: 0 <= j < |p| ==> p[j] == bs[j];
      BestFitAsWrittenAgrees(p, size);
    }
  }

  /**
   * A memory of INT_MAX units (accepted by both drivers, whose only bound is
   * a floor of 100) starts as one free run of INT_MAX units; the scan as
   * written never takes it, so best-fit rejects every request, while the
   * strategy calls for that run.
   */
  lemma BestFitSentinelMissesFullRun()
    ensures BestFitAsWritten([Block(0, IntMax, "", true)], 1).0 == None
    ensures BestFitIndex([Block(0, IntMax, "", true)], 1) == Some(0)
  {
    var bs := [Block(0, IntMax, "", true)];
    assert bs[..0] == [];
  }
}
