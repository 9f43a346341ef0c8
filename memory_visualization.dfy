/** The figures the memory bar shows: how much memory is allocated and
    free, the fragmentation of the free space, the colour of each block
    and the last address a block covers. */
module MemoryVisualization {
  import opened Common
  import opened MemoryAllocation
  import opened AllocationStatistics

  datatype MemoryUsage = MemoryUsage(allocatedSize: nat, freeSize: nat, percentage: real)

  /** `calculateMemoryUsage`: allocated and free memory add up to the
      total size of the blocks (the memory size on a partition), and the
      percentage is the one the statistics card reports as utilization. */
  function CalculateMemoryUsage(blocks: seq<MemoryBlock>): (r: MemoryUsage)
    ensures r.allocatedSize + r.freeSize == SumSizes(blocks)
    ensures Partition(blocks, MemorySize) ==> r.allocatedSize + r.freeSize == MemorySize
    ensures r.allocatedSize == CalculateMemoryUtilization(blocks).allocatedSize
    ensures r.percentage == CalculateMemoryUtilization(blocks).utilization
    ensures Partition(blocks, MemorySize) ==> 0.0 <= r.percentage <= 100.0
  {
    AllocatedPlusFree(blocks);
    PartitionTotals(blocks);
    MemoryUsage(AllocatedMemory(blocks), FreeMemory(blocks), Percent(AllocatedMemory(blocks), MemorySize))
  }

  /** `calculateFragmentation`: 0 with at most one free block or no free
      memory, otherwise the share of the free memory outside the largest
      free block; always below 100, and equal to the external
      fragmentation of the statistics card on every block list. */
  function CalculateFragmentation(blocks: seq<MemoryBlock>): (r: real)
    ensures |Filter(blocks, IsFree)| <= 1 || FreeMemory(blocks) == 0 ==> r == 0.0
    ensures 0.0 <= r < 100.0
    ensures r == CalculateFragmentationStats(blocks).externalFragmentation
  {
    var free := Filter(blocks, IsFree);
    var total := FreeMemory(blocks);
    if |free| <= 1 || total == 0 then
      SingleFreeBlock(free);
      0.0
    else
      var largest := MaxOf(Sizes(free));
      SumOfSizes(free);
      ExternalFragmentationBounds(Sizes(free));
      Percent(total - largest, total)
  }

  /** With a single free block, that block is the largest and holds all
      the free memory. */
  lemma SingleFreeBlock(free: seq<MemoryBlock>)
    ensures |free| == 1 ==> MaxOf(Sizes(free)) == SumSizes(free)
  {
    if |free| == 1 {
      assert free[1..] == [];
    }
  }

  /** The colour of a free block. */
  const FreeColor: string := "#e0e0e0"

  /** The colours of allocated blocks, chosen by owner id modulo 8. */
  const ProcessColors: seq<string> :=
    ["#3880ff", "#10dc60", "#ffce00", "#f04141", "#7044ff", "#00d4aa", "#ff6600", "#c0392b"]

  /** `(block.processId || 0) % colors.length`: a missing owner counts as 0. */
  function ColorIndex(processId: Option<nat>): (i: nat)
    ensures i < |ProcessColors|
    ensures processId.Some? ==> i == processId.value % 8
  {
    match processId
    case None => 0
    case Some(id) => id % |ProcessColors|
  }

  /** `getBlockColor`: the free colour exactly for free blocks; an
      allocated block takes one of the eight process colours, picked by
      its owner id modulo 8. */
  function GetBlockColor(block: MemoryBlock): (c: string)
    ensures c == FreeColor <==> !block.isAllocated
    ensures block.isAllocated ==> c in ProcessColors && c == ProcessColors[ColorIndex(block.processId)]
  {
    if !block.isAllocated then FreeColor else ProcessColors[ColorIndex(block.processId)]
  }

  /** Allocated blocks whose owners differ modulo 8 are told apart by
      colour, and owners equal modulo 8 share one. */
  lemma ColorsByOwner(a: MemoryBlock, b: MemoryBlock)
    requires a.isAllocated && b.isAllocated && a.processId.Some? && b.processId.Some?
    ensures GetBlockColor(a) == GetBlockColor(b) <==> a.processId.value % 8 == b.processId.value % 8
  {
    ProcessColorsDistinct();
  }

  /** No two of the eight process colours are the same. */
  lemma ProcessColorsDistinct()
    ensures forall i, j :: 0 <= i < j < |ProcessColors| ==> ProcessColors[i] != ProcessColors[j]
  {
    forall i, j | 0 <= i < j < |ProcessColors|
      ensures ProcessColors[i] != ProcessColors[j]
    {
      var a, b := ProcessColors[i], ProcessColors[j];
      assert a[1] != b[1] || a[2] != b[2] || a[3] != b[3];
    }
  }

  /** The last address a block covers, as its detail card shows it. */
  function EndAddress(block: MemoryBlock): int
  {
    block.start + block.size - 1
  }

  /** On a partition, every block ends at or after its start, each block
      ends just before the next one starts, and the last one ends at the
      last address of the memory. */
  lemma EndAddressesTile(blocks: seq<MemoryBlock>)
    requires Partition(blocks, MemorySize)
    ensures forall k :: 0 <= k < |blocks| ==> blocks[k].start <= EndAddress(blocks[k])
    ensures forall k :: 0 <= k < |blocks| - 1 ==> EndAddress(blocks[k]) + 1 == blocks[k + 1].start
    ensures |blocks| > 0 && EndAddress(blocks[|blocks| - 1]) == MemorySize - 1
  {
    assert |blocks| > 0;
  }
}
