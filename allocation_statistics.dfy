/** The figures of the allocation statistics card: request success,
    memory utilization, external fragmentation of the free space, the
    spread of allocation sizes, and the overall performance rating.
    Percentages are exact ratios; the card's rounding to two decimals
    is display only. */
module AllocationStatistics {
  import opened Common
  import opened MemoryAllocation

  predicate RequestAllocated(r: AllocationRequest) { r.isAllocated }

  /** The sizes of `s`, in order. */
  function Sizes(s: seq<MemoryBlock>): (r: seq<int>)
    ensures |r| == |s| && forall i :: 0 <= i < |s| ==> r[i] == s[i].size
  {
    seq(|s|, i requires 0 <= i < |s| => s[i].size as int)
  }

  lemma {:induction false} SumOfSizes(s: seq<MemoryBlock>)
    ensures Sum(Sizes(s)) == SumSizes(s)
  {
    if s != [] {
      assert Sizes(s)[1..] == Sizes(s[1..]);
      SumOfSizes(s[1..]);
    }
  }

  // ---------------------------------------------------------------------
  // Requests

  datatype AllocationStats = AllocationStats(
    totalRequests: nat,
    successfulAllocations: nat,
    failedAllocations: int,
    successRate: real)

  /** `calculateAllocationStats`: the requests in the log, how many of
      them were allocated, how many were not, and the success rate. */
  function CalculateAllocationStats(requests: seq<AllocationRequest>): (r: AllocationStats)
    ensures r.totalRequests == |requests|
    ensures 0 <= r.failedAllocations && r.successfulAllocations + r.failedAllocations == r.totalRequests
    ensures r.failedAllocations == 0 <==> forall i :: 0 <= i < |requests| ==> requests[i].isAllocated
    ensures |requests| == 0 ==> r.successRate == 0.0
    ensures 0.0 <= r.successRate <= 100.0
    ensures r.successRate == 100.0 <==> |requests| > 0 && forall i :: 0 <= i < |requests| ==> requests[i].isAllocated
    ensures r.successRate == 0.0 <==> forall i :: 0 <= i < |requests| ==> !requests[i].isAllocated
  {
    FilterKeepsAll(requests, RequestAllocated);
    FilterKeepsNone(requests, RequestAllocated);
    var total := |requests|;
    var successful := |Filter(requests, RequestAllocated)|;
    if total > 0 then
      PercentBounds(successful, total);
      AllocationStats(total, successful, total - successful, Percent(successful, total))
    else
      AllocationStats(total, successful, total - successful, 0.0)
  }

  // ---------------------------------------------------------------------
  // Utilization

  function AllocatedMemory(blocks: seq<MemoryBlock>): nat
  {
    SumSizes(Filter(blocks, IsAllocated))
  }

  function FreeMemory(blocks: seq<MemoryBlock>): nat
  {
    SumSizes(Filter(blocks, IsFree))
  }

  /** Every block is allocated or free, so the two totals add up to the
      total size of the blocks. */
  lemma {:induction false} AllocatedPlusFree(blocks: seq<MemoryBlock>)
    ensures AllocatedMemory(blocks) + FreeMemory(blocks) == SumSizes(blocks)
  {
    if blocks != [] {
      AllocatedPlusFree(blocks[1..]);
    }
  }

  /** With blocks of positive size, there is no free memory exactly when
      no block is free. */
  lemma NoFreeMemory(blocks: seq<MemoryBlock>)
    requires forall k :: 0 <= k < |blocks| ==> blocks[k].size > 0
    ensures FreeMemory(blocks) == 0 <==> forall k :: 0 <= k < |blocks| ==> blocks[k].isAllocated
  {
    var f := Filter(blocks, IsFree);
    if f != [] {
      assert f[0] in blocks;
      assert SumSizes(f) >= f[0].size > 0;
    }
  }

  /** On a partition of the memory, the allocated and the free memory add
      up to the memory size, and nothing is free exactly when every
      block is allocated. */
  lemma PartitionTotals(blocks: seq<MemoryBlock>)
    ensures Partition(blocks, MemorySize) ==> AllocatedMemory(blocks) + FreeMemory(blocks) == MemorySize
    ensures Partition(blocks, MemorySize) ==>
      (FreeMemory(blocks) == 0 <==> forall k :: 0 <= k < |blocks| ==> blocks[k].isAllocated)
  {
    if Partition(blocks, MemorySize) {
      AllocatedPlusFree(blocks);
      TilesSum(blocks, 0, MemorySize);
      NoFreeMemory(blocks);
    }
  }

  datatype MemoryUtilization = MemoryUtilization(allocatedSize: nat, utilization: real)

  /** `calculateMemoryUtilization`: on a partition of the memory the
      allocated and the free memory add up to the memory size, and the
      utilization is a percentage that reaches 100 exactly when no block
      is free. */
  function CalculateMemoryUtilization(blocks: seq<MemoryBlock>): (r: MemoryUtilization)
    ensures r.utilization * MemorySize as real == 100.0 * AllocatedMemory(blocks) as real
    ensures Partition(blocks, MemorySize) ==> r.allocatedSize + FreeMemory(blocks) == MemorySize
    ensures Partition(blocks, MemorySize) ==> 0.0 <= r.utilization <= 100.0
    ensures Partition(blocks, MemorySize) ==>
      (r.utilization == 100.0 <==> forall k :: 0 <= k < |blocks| ==> blocks[k].isAllocated)
  {
    var used := AllocatedMemory(blocks);
    PartitionTotals(blocks);
    PercentBounds(used, MemorySize);
    MemoryUtilization(used, Percent(used, MemorySize))
  }

  // ---------------------------------------------------------------------
  // Fragmentation

  /** `(totalFree - largest) / totalFree` as a percentage, or 0 when there
      is no free memory. */
  function ExternalFragmentation(totalFree: int, largest: int): real
  {
    if totalFree > 0 then Percent(totalFree - largest, totalFree) else 0.0
  }

  /** With non-negative sizes, the largest is at most the total and is
      positive when the total is. */
  lemma LargestWithinTotal(sizes: seq<int>)
    requires |sizes| > 0 && forall i :: 0 <= i < |sizes| ==> sizes[i] >= 0
    ensures 0 <= MaxOf(sizes) <= Sum(sizes)
    ensures Sum(sizes) > 0 ==> MaxOf(sizes) > 0
  {
    MaxAtMostSum(sizes);
    SumAtMostMax(sizes);
    if MaxOf(sizes) <= 0 {
      MulMonotone(|sizes|, MaxOf(sizes), 0);
    }
  }

  /** The fragmentation percentage is below 100 and is 0 exactly when the
      largest free block holds all of the free memory. */
  lemma ExternalFragmentationBounds(sizes: seq<int>)
    requires |sizes| > 0 && forall i :: 0 <= i < |sizes| ==> sizes[i] >= 0
    ensures var e := ExternalFragmentation(Sum(sizes), MaxOf(sizes));
      0.0 <= e < 100.0 && (e == 0.0 <==> MaxOf(sizes) == Sum(sizes))
  {
    LargestWithinTotal(sizes);
    if Sum(sizes) > 0 {
      PercentBounds(Sum(sizes) - MaxOf(sizes), Sum(sizes));
    }
  }

  datatype FragmentationStats = FragmentationStats(
    freeBlocks: nat,
    largestFreeBlock: int,
    averageFreeBlockSize: real,
    externalFragmentation: real)

  /** `calculateFragmentationStats`: all zero without free blocks;
      otherwise the largest free block is one of the free blocks and no
      free block is larger, the average is the free memory shared out
      over the free blocks, and the external fragmentation is a percentage below 100
      that is 0 exactly when the largest free block is all the free
      memory. */
  function CalculateFragmentationStats(blocks: seq<MemoryBlock>): (r: FragmentationStats)
    ensures r.freeBlocks == |Filter(blocks, IsFree)|
    ensures r.freeBlocks == 0 ==> r == FragmentationStats(0, 0, 0.0, 0.0)
    ensures r.freeBlocks > 0 ==>
      exists k :: 0 <= k < |blocks| && !blocks[k].isAllocated && blocks[k].size == r.largestFreeBlock
    ensures forall k :: 0 <= k < |blocks| && !blocks[k].isAllocated ==> blocks[k].size <= r.largestFreeBlock
    ensures r.freeBlocks > 0 ==> r.averageFreeBlockSize == Mean(FreeMemory(blocks), r.freeBlocks)
    ensures 0.0 <= r.externalFragmentation < 100.0
    ensures r.externalFragmentation == 0.0 <==> r.largestFreeBlock == FreeMemory(blocks)
  {
    var free := Filter(blocks, IsFree);
    var sizes := Sizes(free);
    SumOfSizes(free);
    if |free| == 0 then
      FragmentationStats(0, 0, 0.0, 0.0)
    else
      var largest := MaxOf(sizes);
      ExternalFragmentationBounds(sizes);
      ExtremeSizesOfFiltered(blocks, IsFree);
      FragmentationStats(|free|, largest, Mean(FreeMemory(blocks), |free|),
                         ExternalFragmentation(FreeMemory(blocks), largest))
  }

  // ---------------------------------------------------------------------
  // Allocation sizes

  /** Among the blocks a filter keeps, the largest and the smallest size
      are sizes of kept blocks and bound the size of every kept block. */
  lemma ExtremeSizesOfFiltered(blocks: seq<MemoryBlock>, f: MemoryBlock -> bool)
    requires |Filter(blocks, f)| > 0
    ensures var sizes := Sizes(Filter(blocks, f));
      && (exists k :: 0 <= k < |blocks| && f(blocks[k]) && blocks[k].size == MaxOf(sizes))
      && (exists k :: 0 <= k < |blocks| && f(blocks[k]) && blocks[k].size == MinOf(sizes))
      && (forall k :: 0 <= k < |blocks| && f(blocks[k]) ==> MinOf(sizes) <= blocks[k].size <= MaxOf(sizes))
  {
    var kept := Filter(blocks, f);
    var sizes := Sizes(kept);
    var jmax :| 0 <= jmax < |sizes| && sizes[jmax] == MaxOf(sizes);
    var jmin :| 0 <= jmin < |sizes| && sizes[jmin] == MinOf(sizes);
    assert kept[jmax] in blocks && kept[jmin] in blocks;
    forall k | 0 <= k < |blocks| && f(blocks[k])
      ensures MinOf(sizes) <= blocks[k].size <= MaxOf(sizes)
    {
      assert blocks[k] in kept;
      var j :| 0 <= j < |kept| && kept[j] == blocks[k];
      assert sizes[j] == blocks[k].size;
    }
  }

  /** The population variance of `s`, the mean of the squared deviations
      from the mean. */
  function Variance(s: seq<int>): (v: real)
    requires |s| > 0
    ensures v >= 0.0
  {
    SquaredDeviations(s, Mean(Sum(s), |s|)) / |s| as real
  }

  datatype EfficiencyStats = EfficiencyStats(
    averageAllocationSize: real,
    smallestAllocation: int,
    largestAllocation: int,
    allocationVariance: real)

  /** `calculateAllocationEfficiency`: all zero without allocated blocks;
      otherwise the smallest and the largest allocation are sizes of
      allocated blocks bounding every allocated size, the average lies
      between them and is the mean of the allocated sizes, and the
      variance is not negative. */
  function CalculateAllocationEfficiency(blocks: seq<MemoryBlock>): (r: EfficiencyStats)
    ensures |Filter(blocks, IsAllocated)| == 0 ==> r == EfficiencyStats(0.0, 0, 0, 0.0)
    ensures |Filter(blocks, IsAllocated)| > 0 ==>
      && (exists k :: 0 <= k < |blocks| && blocks[k].isAllocated && blocks[k].size == r.smallestAllocation)
      && (exists k :: 0 <= k < |blocks| && blocks[k].isAllocated && blocks[k].size == r.largestAllocation)
      && r.smallestAllocation as real <= r.averageAllocationSize <= r.largestAllocation as real
      && r.averageAllocationSize == Mean(AllocatedMemory(blocks), |Filter(blocks, IsAllocated)|)
    ensures forall k :: 0 <= k < |blocks| && blocks[k].isAllocated ==>
      r.smallestAllocation <= blocks[k].size <= r.largestAllocation
    ensures r.allocationVariance >= 0.0
  {
    var owned := Filter(blocks, IsAllocated);
    if |owned| == 0 then
      EfficiencyStats(0.0, 0, 0, 0.0)
    else
      var sizes := Sizes(owned);
      SumOfSizes(owned);
      MeanBetweenMinAndMax(sizes);
      ExtremeSizesOfFiltered(blocks, IsAllocated);
      EfficiencyStats(Mean(Sum(sizes), |sizes|), MinOf(sizes), MaxOf(sizes), Variance(sizes))
  }

  // ---------------------------------------------------------------------
  // Rating

  datatype PerformanceRating = Excellent | Good | Fair | NeedsImprovement

  /** Success weighs 40%, utilization 30% and the absence of
      fragmentation 30%. */
  function Score(successRate: real, utilization: real, externalFragmentation: real): real
  {
    successRate * 0.4 + utilization * 0.3 + (100.0 - externalFragmentation) * 0.3
  }

  function RatingFor(score: real): (r: PerformanceRating)
    ensures r == Excellent <==> score >= 80.0
    ensures r == Good <==> 60.0 <= score < 80.0
    ensures r == Fair <==> 40.0 <= score < 60.0
    ensures r == NeedsImprovement <==> score < 40.0
  {
    if score >= 80.0 then Excellent
    else if score >= 60.0 then Good
    else if score >= 40.0 then Fair
    else NeedsImprovement
  }

  function Rank(r: PerformanceRating): nat
  {
    match r
    case NeedsImprovement => 0
    case Fair => 1
    case Good => 2
    case Excellent => 3
  }

  /** A higher score never earns a worse rating. */
  lemma RatingMonotone(a: real, b: real)
    requires a <= b
    ensures Rank(RatingFor(a)) <= Rank(RatingFor(b))
  {
  }

  /** `getPerformanceRating` on the card's own figures. Every request
      allocated, no free block left and a non-empty log give the best
      rating; an empty log over an untouched memory gives the worst. */
  function GetPerformanceRating(blocks: seq<MemoryBlock>, requests: seq<AllocationRequest>): (r: PerformanceRating)
    ensures (&& Partition(blocks, MemorySize) && |requests| > 0
             && (forall i :: 0 <= i < |requests| ==> requests[i].isAllocated)
             && (forall k :: 0 <= k < |blocks| ==> blocks[k].isAllocated)) ==> r == Excellent
    ensures blocks == [InitialBlock()] && requests == [] ==> r == NeedsImprovement
  {
    var stats := CalculateAllocationStats(requests);
    var utilization := CalculateMemoryUtilization(blocks);
    var fragmentation := CalculateFragmentationStats(blocks);
    RatingFor(Score(stats.successRate, utilization.utilization, fragmentation.externalFragmentation))
  }

  /** The score rises with the success rate and the utilization and falls
      with the external fragmentation. */
  lemma ScoreMonotone(successRate1: real, utilization1: real, fragmentation1: real,
                      successRate2: real, utilization2: real, fragmentation2: real)
    requires successRate1 <= successRate2 && utilization1 <= utilization2
    requires fragmentation2 <= fragmentation1
    ensures Score(successRate1, utilization1, fragmentation1) <= Score(successRate2, utilization2, fragmentation2)
  {
  }

  /** Of two memory states, the one whose card shows a success rate and a
      utilization no lower and an external fragmentation no higher never
      earns a worse rating. */
  lemma PerformanceRatingMonotone(blocks1: seq<MemoryBlock>, requests1: seq<AllocationRequest>,
                                  blocks2: seq<MemoryBlock>, requests2: seq<AllocationRequest>)
    requires CalculateAllocationStats(requests1).successRate <= CalculateAllocationStats(requests2).successRate
    requires CalculateMemoryUtilization(blocks1).utilization <= CalculateMemoryUtilization(blocks2).utilization
    requires CalculateFragmentationStats(blocks2).externalFragmentation <= CalculateFragmentationStats(blocks1).externalFragmentation
    ensures Rank(GetPerformanceRating(blocks1, requests1)) <= Rank(GetPerformanceRating(blocks2, requests2))
  {
  }
}
