/** The contiguous memory allocator of the memory-allocation page: a list
    of blocks that tile the memory, a log of allocation requests, and the
    First-Fit / Best-Fit / Worst-Fit policies that choose the free block
    a request is carved out of. */
module MemoryAllocation {
  import opened Common
  import opened Sorting

  /** Total memory in KB: the page's `useState(1024)`, which is never set. */
  const MemorySize: int := 1024

  datatype MemoryBlock = MemoryBlock(
    id: nat,
    start: int,
    size: nat,
    processId: Option<nat>,
    processName: Option<string>,
    isAllocated: bool)

  /** A logged request. Records are only built after validation, so
      `size` is positive for every logged request. */
  datatype AllocationRequest = AllocationRequest(
    id: nat,
    processName: string,
    size: nat,
    isAllocated: bool,
    blockId: Option<nat>)

  datatype AllocationAlgorithm = FirstFit | BestFit | WorstFit

  /** The alert reasons of the page, as an enumeration. */
  datatype ValidationError = InvalidNameOrSize | ExceedsMemorySize
  datatype AllocFailure = NoFreeBlocks | NoBlockLargeEnough

  datatype AllocResult =
    | AllocSuccess(blockId: nat, newBlocks: seq<MemoryBlock>)
    | AllocFailed(reason: AllocFailure)

  datatype RequestOutcome =
    | Rejected(error: ValidationError)
    | AllocationFailed(reason: AllocFailure)
    | Allocated(blockId: nat)

  function StartOf(b: MemoryBlock): int { b.start }
  function SizeOf(b: MemoryBlock): int { b.size }
  function NegSizeOf(b: MemoryBlock): int { 0 - b.size as int }
  predicate IsAllocated(b: MemoryBlock) { b.isAllocated }
  predicate IsFree(b: MemoryBlock) { !b.isAllocated }

  // ---------------------------------------------------------------------
  // The partition invariant

  /** `s` lists blocks of positive size that cover `[lo, hi)` left to
      right with no gap and no overlap. */
  predicate Tiles(s: seq<MemoryBlock>, lo: int, hi: int)
  {
    && (|s| == 0 ==> lo == hi)
    && (|s| > 0 ==> s[0].start == lo && s[|s| - 1].start + s[|s| - 1].size == hi)
    && (forall k :: 0 <= k < |s| ==> s[k].size > 0)
    && (forall k :: 0 <= k < |s| - 1 ==> s[k].start + s[k].size == s[k + 1].start)
  }

  predicate Partition(s: seq<MemoryBlock>, memorySize: int)
  {
    Tiles(s, 0, memorySize)
  }

  predicate UniqueIds(s: seq<MemoryBlock>)
  {
    forall i, j :: 0 <= i < j < |s| ==> s[i].id != s[j].id
  }

  /** A block has an owner exactly when it is allocated. */
  predicate OwnersConsistent(s: seq<MemoryBlock>)
  {
    forall k :: 0 <= k < |s| ==>
      (s[k].isAllocated <==> s[k].processId.Some?) &&
      (s[k].isAllocated <==> s[k].processName.Some?)
  }

  predicate UniqueRequestIds(rs: seq<AllocationRequest>)
  {
    forall i, j :: 0 <= i < j < |rs| ==> rs[i].id != rs[j].id
  }

  function SumSizes(s: seq<MemoryBlock>): nat
  {
    if s == [] then 0 else s[0].size + SumSizes(s[1..])
  }

  lemma {:induction false} SumSizesAppend(a: seq<MemoryBlock>, b: seq<MemoryBlock>)
    ensures SumSizes(a + b) == SumSizes(a) + SumSizes(b)
  {
    if a == [] {
      assert a + b == b;
    } else {
      assert (a + b)[1..] == a[1..] + b;
      SumSizesAppend(a[1..], b);
    }
  }

  /** The sum of sizes depends only on which blocks there are. */
  lemma {:induction false} SumSizesPermutation(a: seq<MemoryBlock>, b: seq<MemoryBlock>)
    requires multiset(a) == multiset(b)
    ensures SumSizes(a) == SumSizes(b)
    decreases |a|
  {
    if a == [] {
      assert |b| == |multiset(b)| == 0;
    } else {
      assert a[0] in multiset(b);
      var k :| 0 <= k < |b| && b[k] == a[0];
      RemoveFirstMatch(a, b, k);
      SumSizesPermutation(a[1..], RemoveAt(b, k));
      SumSizesRemoveAt(b, k);
    }
  }

  lemma SumSizesRemoveAt(b: seq<MemoryBlock>, k: nat)
    requires k < |b|
    ensures SumSizes(RemoveAt(b, k)) + b[k].size == SumSizes(b)
  {
    var front, back := b[..k], b[k + 1..];
    SplitAt(b, k);
    calc {
      SumSizes(b);
      { SumSizesAppend(front, [b[k]] + back); }
      SumSizes(front) + SumSizes([b[k]] + back);
      { SumSizesCons(b[k], back); }
      SumSizes(front) + b[k].size + SumSizes(back);
      { SumSizesAppend(front, back); }
      SumSizes(front + back) + b[k].size;
    }
  }

  lemma SumSizesCons(x: MemoryBlock, t: seq<MemoryBlock>)
    ensures SumSizes([x] + t) == x.size + SumSizes(t)
  {
    assert ([x] + t)[1..] == t;
  }

  lemma TilesTail(s: seq<MemoryBlock>, lo: int, hi: int)
    requires Tiles(s, lo, hi) && |s| > 0
    ensures Tiles(s[1..], lo + s[0].size, hi)
  {
    if |s| > 1 {
      assert s[0].start + s[0].size == s[1].start;
    }
  }

  lemma TilesInit(s: seq<MemoryBlock>, lo: int, hi: int)
    requires Tiles(s, lo, hi) && |s| > 0
    ensures Tiles(s[..|s| - 1], lo, s[|s| - 1].start)
  {
    if |s| > 1 {
      assert s[|s| - 2].start + s[|s| - 2].size == s[|s| - 1].start;
    }
  }

  lemma TilesSnoc(s: seq<MemoryBlock>, lo: int, mid: int, b: MemoryBlock)
    requires Tiles(s, lo, mid) && b.start == mid && b.size > 0
    ensures Tiles(s + [b], lo, mid + b.size)
  {
  }

  lemma TilesAppend(a: seq<MemoryBlock>, b: seq<MemoryBlock>, lo: int, mid: int, hi: int)
    requires Tiles(a, lo, mid) && Tiles(b, mid, hi)
    ensures Tiles(a + b, lo, hi)
  {
    var s := a + b;
    forall k | 0 <= k < |s| - 1
      ensures s[k].start + s[k].size == s[k + 1].start
    {
      if k < |a| - 1 {
        assert s[k] == a[k] && s[k + 1] == a[k + 1];
      } else if k == |a| - 1 {
        assert s[k] == a[k] && s[k + 1] == b[0];
      } else {
        assert s[k] == b[k - |a|] && s[k + 1] == b[k - |a| + 1];
      }
    }
  }

  /** A tiling covers exactly `hi - lo` units of memory. */
  lemma {:induction false} TilesSum(s: seq<MemoryBlock>, lo: int, hi: int)
    requires Tiles(s, lo, hi)
    ensures SumSizes(s) == hi - lo
  {
    if s != [] {
      TilesTail(s, lo, hi);
      TilesSum(s[1..], lo + s[0].size, hi);
    }
  }

  /** In a tiling the start addresses strictly increase. */
  lemma {:induction false} TilesStrictlyIncreasing(s: seq<MemoryBlock>, lo: int, hi: int)
    requires Tiles(s, lo, hi)
    ensures forall i, j :: 0 <= i < j < |s| ==> s[i].start < s[j].start
    ensures forall i :: 0 <= i < |s| ==> lo <= s[i].start && s[i].start + s[i].size <= hi
  {
    if s != [] {
      TilesTail(s, lo, hi);
      TilesStrictlyIncreasing(s[1..], lo + s[0].size, hi);
      forall i, j | 0 <= i < j < |s|
        ensures s[i].start < s[j].start
      {
        if i > 0 {
          assert s[i] == s[1..][i - 1] && s[j] == s[1..][j - 1];
        } else {
          assert s[j] == s[1..][j - 1];
        }
      }
      forall i | 0 <= i < |s|
        ensures lo <= s[i].start && s[i].start + s[i].size <= hi
      {
        if i > 0 {
          assert s[i] == s[1..][i - 1];
        }
      }
    }
  }

  lemma TilesSorted(s: seq<MemoryBlock>, lo: int, hi: int)
    requires Tiles(s, lo, hi)
    ensures Sorted(s, StartOf)
  {
    TilesStrictlyIncreasing(s, lo, hi);
  }

  // ---------------------------------------------------------------------
  // Page initialisation and request validation

  function InitialBlock(): MemoryBlock
  {
    MemoryBlock(1, 0, MemorySize, None, None, false)
  }

  /** The reset state: one free block spanning the whole memory. */
  lemma InitialIsPartition()
    ensures Partition([InitialBlock()], MemorySize)
    ensures SumSizes([InitialBlock()]) == MemorySize
    ensures UniqueIds([InitialBlock()]) && OwnersConsistent([InitialBlock()])
  {
  }

  /** The two checks `addAllocationRequest` makes before touching any
      block: a blank (trimmed) name or a non-positive size first, then a
      size above the memory size. */
  function ValidateRequest(processName: string, size: int): (r: Option<ValidationError>)
    ensures r.None? <==> !IsBlank(processName) && 0 < size <= MemorySize
    ensures r == Some(InvalidNameOrSize) <==> IsBlank(processName) || size <= 0
    ensures r == Some(ExceedsMemorySize) <==> !IsBlank(processName) && size > MemorySize
  {
    if IsBlank(processName) || size <= 0 then Some(InvalidNameOrSize)
    else if size > MemorySize then Some(ExceedsMemorySize)
    else None
  }

  // ---------------------------------------------------------------------
  // Placement policies

  /** A block can hold the request: it is free and large enough. */
  predicate Fits(b: MemoryBlock, size: int)
  {
    !b.isAllocated && b.size >= size
  }

  function FirstFitFrom(blocks: seq<MemoryBlock>, size: int, k: nat): (r: Option<nat>)
    requires k <= |blocks|
    decreases |blocks| - k
    ensures r.Some? ==> k <= r.value < |blocks| && Fits(blocks[r.value], size)
    ensures r.Some? ==> forall j :: k <= j < r.value ==> !Fits(blocks[j], size)
    ensures r.None? ==> forall j :: k <= j < |blocks| ==> !Fits(blocks[j], size)
  {
    if k == |blocks| then None
    else if Fits(blocks[k], size) then Some(k)
    else FirstFitFrom(blocks, size, k + 1)
  }

  /** First-Fit: `freeBlocks.find(block => block.size >= size)`. */
  function FirstFitIndex(blocks: seq<MemoryBlock>, size: int): (r: Option<nat>)
    ensures r.None? <==> forall j :: 0 <= j < |blocks| ==> !Fits(blocks[j], size)
    ensures r.Some? ==> r.value < |blocks| && Fits(blocks[r.value], size)
    ensures r.Some? ==> forall j :: 0 <= j < r.value ==> !Fits(blocks[j], size)
  {
    FirstFitFrom(blocks, size, 0)
  }

  /** Best-Fit: the `reduce` with `current.size < best.size` over the
      suitable blocks keeps the first block of minimal size. */
  function BestFitIndex(blocks: seq<MemoryBlock>, size: int): (r: Option<nat>)
    ensures r.None? <==> forall j :: 0 <= j < |blocks| ==> !Fits(blocks[j], size)
    ensures r.Some? ==> r.value < |blocks| && Fits(blocks[r.value], size)
    ensures r.Some? ==> forall j :: 0 <= j < |blocks| && Fits(blocks[j], size) ==>
      blocks[r.value].size <= blocks[j].size
    ensures r.Some? ==> forall j :: 0 <= j < r.value && Fits(blocks[j], size) ==>
      blocks[j].size > blocks[r.value].size
  {
    FirstMinIndex(blocks, SizeOf, b => Fits(b, size))
  }

  /** Worst-Fit: the `reduce` with `current.size > worst.size` keeps the
      first block of maximal size. */
  function WorstFitIndex(blocks: seq<MemoryBlock>, size: int): (r: Option<nat>)
    ensures r.None? <==> forall j :: 0 <= j < |blocks| ==> !Fits(blocks[j], size)
    ensures r.Some? ==> r.value < |blocks| && Fits(blocks[r.value], size)
    ensures r.Some? ==> forall j :: 0 <= j < |blocks| && Fits(blocks[j], size) ==>
      blocks[r.value].size >= blocks[j].size
    ensures r.Some? ==> forall j :: 0 <= j < r.value && Fits(blocks[j], size) ==>
      blocks[j].size < blocks[r.value].size
  {
    FirstMinIndex(blocks, NegSizeOf, b => Fits(b, size))
  }

  function SelectBlock(blocks: seq<MemoryBlock>, algorithm: AllocationAlgorithm, size: int): (r: Option<nat>)
    ensures r.None? <==> forall j :: 0 <= j < |blocks| ==> !Fits(blocks[j], size)
    ensures r.Some? ==> r.value < |blocks| && Fits(blocks[r.value], size)
  {
    match algorithm
    case FirstFit => FirstFitIndex(blocks, size)
    case BestFit => BestFitIndex(blocks, size)
    case WorstFit => WorstFitIndex(blocks, size)
  }

  /** `findIndex(block => block.id === id)`. */
  function FindIndexById(blocks: seq<MemoryBlock>, id: nat): (r: Option<nat>)
    ensures r.Some? ==> r.value < |blocks| && blocks[r.value].id == id
    ensures r.Some? ==> forall j :: 0 <= j < r.value ==> blocks[j].id != id
    ensures r.None? ==> forall j :: 0 <= j < |blocks| ==> blocks[j].id != id
  {
    if blocks == [] then None
    else if blocks[0].id == id then Some(0)
    else
      var r := FindIndexById(blocks[1..], id);
      if r.None? then None else Some(r.value + 1)
  }

  /** With unique ids, looking a block up by its id finds its own index. */
  lemma FindIndexOwnId(blocks: seq<MemoryBlock>, i: nat)
    requires i < |blocks|
    ensures UniqueIds(blocks) ==> FindIndexById(blocks, blocks[i].id) == Some(i)
  {
  }

  // ---------------------------------------------------------------------
  // Splitting a block

  /** The block that takes the front of `selected` for the request. */
  function AllocatedPart(selected: MemoryBlock, request: AllocationRequest, allocId: nat): MemoryBlock
  {
    MemoryBlock(allocId, selected.start, request.size, Some(request.id), Some(request.processName), true)
  }

  /** The free rest of `selected`, present only when it is larger than
      the request. */
  function Remainder(selected: MemoryBlock, request: AllocationRequest, remId: nat): seq<MemoryBlock>
    requires request.size <= selected.size
  {
    if selected.size > request.size
    then [MemoryBlock(remId, selected.start + request.size, selected.size - request.size, None, None, false)]
    else []
  }

  /** The copy of the block list with position `index` overwritten by the
      allocated block (at `selected.start`, of the requested size) and a
      free remainder spliced in right after it. */
  function SplitBlock(blocks: seq<MemoryBlock>, index: nat, selected: MemoryBlock,
                      request: AllocationRequest, allocId: nat, remId: nat): seq<MemoryBlock>
    requires index < |blocks| && request.size <= selected.size
  {
    blocks[..index] + [AllocatedPart(selected, request, allocId)] +
    Remainder(selected, request, remId) + blocks[index + 1..]
  }

  lemma TilesPrefix(s: seq<MemoryBlock>, lo: int, hi: int, i: nat)
    requires Tiles(s, lo, hi) && i < |s|
    ensures Tiles(s[..i], lo, s[i].start)
  {
    if i > 0 {
      assert s[i - 1].start + s[i - 1].size == s[i].start;
    }
  }

  lemma TilesSuffix(s: seq<MemoryBlock>, lo: int, hi: int, i: nat)
    requires Tiles(s, lo, hi) && i < |s|
    ensures Tiles(s[i + 1..], s[i].start + s[i].size, hi)
  {
    if i + 1 < |s| {
      assert s[i].start + s[i].size == s[i + 1].start;
    }
  }

  /** Splitting the selected block of a tiling keeps it a tiling. */
  lemma SplitTiles(blocks: seq<MemoryBlock>, i: nat, request: AllocationRequest,
                   allocId: nat, remId: nat, lo: int, hi: int)
    requires Tiles(blocks, lo, hi) && i < |blocks|
    requires 0 < request.size <= blocks[i].size
    ensures Tiles(SplitBlock(blocks, i, blocks[i], request, allocId, remId), lo, hi)
  {
    var sel := blocks[i];
    var mid := [AllocatedPart(sel, request, allocId)] + Remainder(sel, request, remId);
    TilesPrefix(blocks, lo, hi, i);
    TilesSuffix(blocks, lo, hi, i);
    SplitPartsTile(sel, request, allocId, remId);
    TilesAppend(blocks[..i], mid, lo, sel.start, sel.start + sel.size);
    TilesAppend(blocks[..i] + mid, blocks[i + 1..], lo, sel.start + sel.size, hi);
    Regroup(blocks[..i], AllocatedPart(sel, request, allocId), Remainder(sel, request, remId), blocks[i + 1..]);
  }

  /** The allocated part and the remainder tile the block they split. */
  lemma SplitPartsTile(sel: MemoryBlock, request: AllocationRequest, allocId: nat, remId: nat)
    requires 0 < request.size <= sel.size
    ensures Tiles([AllocatedPart(sel, request, allocId)] + Remainder(sel, request, remId),
                  sel.start, sel.start + sel.size)
  {
  }

  /** Each block of a split list is an old block other than the split
      one, or one of the two new blocks. */
  lemma SplitBlockOrigins(blocks: seq<MemoryBlock>, i: nat, selected: MemoryBlock,
                          request: AllocationRequest, allocId: nat, remId: nat)
    requires i < |blocks| && request.size <= selected.size
    ensures var r := SplitBlock(blocks, i, selected, request, allocId, remId);
      forall k :: 0 <= k < |r| ==>
        r[k] == AllocatedPart(selected, request, allocId) || r[k] in Remainder(selected, request, remId) ||
        exists j :: 0 <= j < |blocks| && j != i && r[k] == blocks[j]
  {
    var r := SplitBlock(blocks, i, selected, request, allocId, remId);
    var e := |Remainder(selected, request, remId)|;
    forall k | 0 <= k < |r|
      ensures r[k] == AllocatedPart(selected, request, allocId) || r[k] in Remainder(selected, request, remId) ||
        exists j :: 0 <= j < |blocks| && j != i && r[k] == blocks[j]
    {
      if k < i {
        assert r[k] == blocks[k];
      } else if k > i + e {
        assert r[k] == blocks[k - e];
      } else if k == i + e && e == 1 {
        assert r[k] == Remainder(selected, request, remId)[0];
      }
    }
  }

  /** Splitting keeps ownership consistent and, with fresh ids, keeps
      block ids unique. */
  lemma SplitOwnersAndIds(blocks: seq<MemoryBlock>, i: nat, request: AllocationRequest,
                          allocId: nat, remId: nat)
    requires i < |blocks| && request.size <= blocks[i].size
    ensures OwnersConsistent(blocks) ==> OwnersConsistent(SplitBlock(blocks, i, blocks[i], request, allocId, remId))
    ensures UniqueIds(blocks) && allocId != remId &&
            (forall k :: 0 <= k < |blocks| ==> blocks[k].id != allocId && blocks[k].id != remId) ==>
            UniqueIds(SplitBlock(blocks, i, blocks[i], request, allocId, remId))
  {
    var r := SplitBlock(blocks, i, blocks[i], request, allocId, remId);
    var e := |Remainder(blocks[i], request, remId)|;
    SplitBlockOrigins(blocks, i, blocks[i], request, allocId, remId);
    if UniqueIds(blocks) && allocId != remId &&
       (forall k :: 0 <= k < |blocks| ==> blocks[k].id != allocId && blocks[k].id != remId) {
      forall p, q | 0 <= p < q < |r|
        ensures r[p].id != r[q].id
      {
        // Position p of the result holds block p, the new blocks, or block p - e.
        var jp := if p < i then p else p - e;
        var jq := if q < i then q else q - e;
        if p < i { assert r[p] == blocks[p]; }
        if p > i + e { assert r[p] == blocks[p - e]; }
        if q < i { assert r[q] == blocks[q]; }
        if q > i + e { assert r[q] == blocks[q - e]; }
      }
    }
  }

  /** The split list, position by position. */
  lemma SplitBlockShape(blocks: seq<MemoryBlock>, i: nat, selected: MemoryBlock,
                        request: AllocationRequest, allocId: nat, remId: nat)
    requires i < |blocks| && request.size <= selected.size
    ensures var r := SplitBlock(blocks, i, selected, request, allocId, remId);
      var extra := if selected.size > request.size then 1 else 0;
      && |r| == |blocks| + extra
      && r[..i] == blocks[..i]
      && r[i] == AllocatedPart(selected, request, allocId)
      && r[i + 1 + extra..] == blocks[i + 1..]
  {
    var r := SplitBlock(blocks, i, selected, request, allocId, remId);
    var mid := [AllocatedPart(selected, request, allocId)] + Remainder(selected, request, remId);
    assert r == blocks[..i] + mid + blocks[i + 1..];
    assert r[..i] == blocks[..i];
    assert r[i + |mid|..] == blocks[i + 1..];
  }

  // ---------------------------------------------------------------------
  // allocateMemory

  /** The allocation step: fails with no free block at all, or with no
      free block large enough for the policy to choose; otherwise splits
      the chosen block. The block is located again by its id, as the page
      does with `findIndex`. */
  function AllocateMemory(blocks: seq<MemoryBlock>, algorithm: AllocationAlgorithm,
                          request: AllocationRequest, allocId: nat, remId: nat): (r: AllocResult)
    ensures r.AllocFailed? <==> forall j :: 0 <= j < |blocks| ==> !Fits(blocks[j], request.size)
    ensures r.AllocFailed? ==> (r.reason == NoFreeBlocks <==> forall j :: 0 <= j < |blocks| ==> blocks[j].isAllocated)
    ensures r.AllocSuccess? ==> r.blockId == allocId
    ensures r.AllocSuccess? && UniqueIds(blocks) ==>
      var i := SelectBlock(blocks, algorithm, request.size).value;
      r.newBlocks == SplitBlock(blocks, i, blocks[i], request, allocId, remId)
  {
    var freeBlocks := Filter(blocks, IsFree);
    if |freeBlocks| == 0 then
      AllocFailed(NoFreeBlocks)
    else
      assert exists j :: 0 <= j < |blocks| && !blocks[j].isAllocated by {
        assert freeBlocks[0] in blocks;
      }
      match SelectBlock(blocks, algorithm, request.size)
      case None => AllocFailed(NoBlockLargeEnough)
      case Some(sel) =>
        var index := FindIndexById(blocks, blocks[sel].id);
        FindIndexOwnId(blocks, sel);
        AllocSuccess(allocId, SplitBlock(blocks, index.value, blocks[sel], request, allocId, remId))
  }

  /** Splitting a block of the partition keeps the partition and the
      total size. */
  lemma SplitPartition(blocks: seq<MemoryBlock>, i: nat, request: AllocationRequest, allocId: nat, remId: nat)
    requires Partition(blocks, MemorySize) && i < |blocks|
    requires 0 < request.size <= blocks[i].size
    ensures Partition(SplitBlock(blocks, i, blocks[i], request, allocId, remId), MemorySize)
    ensures SumSizes(SplitBlock(blocks, i, blocks[i], request, allocId, remId)) == SumSizes(blocks)
  {
    SplitTiles(blocks, i, request, allocId, remId, 0, MemorySize);
    TilesSum(blocks, 0, MemorySize);
    TilesSum(SplitBlock(blocks, i, blocks[i], request, allocId, remId), 0, MemorySize);
  }

  lemma SplitRemainderAt(blocks: seq<MemoryBlock>, i: nat, selected: MemoryBlock,
                         request: AllocationRequest, allocId: nat, remId: nat)
    requires i < |blocks| && request.size < selected.size
    ensures var r := SplitBlock(blocks, i, selected, request, allocId, remId);
      i + 1 < |r| && r[i + 1] == Remainder(selected, request, remId)[0]
  {
    var r := SplitBlock(blocks, i, selected, request, allocId, remId);
    assert r == blocks[..i] + ([AllocatedPart(selected, request, allocId)] + Remainder(selected, request, remId)) + blocks[i + 1..];
  }

  /** What allocation does to the block list when it splits block `i`:
      that block becomes the allocated block owned by the request, a free
      remainder follows it only when the block was larger than the
      request, nothing else changes, and the partition and the total size
      are preserved. */
  lemma SplitBlockEffect(blocks: seq<MemoryBlock>, i: nat, request: AllocationRequest, allocId: nat, remId: nat)
    requires Partition(blocks, MemorySize) && i < |blocks|
    requires 0 < request.size <= blocks[i].size
    ensures var nb := SplitBlock(blocks, i, blocks[i], request, allocId, remId);
      var extra := if blocks[i].size > request.size then 1 else 0;
      && Partition(nb, MemorySize)
      && SumSizes(nb) == SumSizes(blocks)
      && |nb| == |blocks| + extra
      && nb[..i] == blocks[..i]
      && nb[i] == MemoryBlock(allocId, blocks[i].start, request.size, Some(request.id), Some(request.processName), true)
      && (extra == 1 ==> nb[i + 1] == MemoryBlock(remId, blocks[i].start + request.size,
                                                  blocks[i].size - request.size, None, None, false))
      && nb[i + 1 + extra..] == blocks[i + 1..]
  {
    SplitPartition(blocks, i, request, allocId, remId);
    SplitBlockShape(blocks, i, blocks[i], request, allocId, remId);
    if blocks[i].size > request.size {
      SplitRemainderAt(blocks, i, blocks[i], request, allocId, remId);
    }
  }

  /** `allocateMemoryForExample`: First-Fit with no separate check for
      "no free block" (the page reports no reason here). */
  function AllocateMemoryForExample(request: AllocationRequest, blocks: seq<MemoryBlock>,
                                    allocId: nat, remId: nat): (r: AllocResult)
    ensures r.AllocFailed? <==> forall j :: 0 <= j < |blocks| ==> !Fits(blocks[j], request.size)
    ensures r.AllocSuccess? ==> r.blockId == allocId
    ensures r.AllocSuccess? && UniqueIds(blocks) ==>
      var i := FirstFitIndex(blocks, request.size).value;
      r.newBlocks == SplitBlock(blocks, i, blocks[i], request, allocId, remId)
  {
    match FirstFitIndex(blocks, request.size)
    case None => AllocFailed(NoBlockLargeEnough)
    case Some(sel) =>
      var index := FindIndexById(blocks, blocks[sel].id);
      FindIndexOwnId(blocks, sel);
      AllocSuccess(allocId, SplitBlock(blocks, index.value, blocks[sel], request, allocId, remId))
  }

  // ---------------------------------------------------------------------
  // deallocateMemory and mergeAdjacentFreeBlocks

  /** `allocationRequests.find(req => req.id === id)`. */
  function FindRequest(requests: seq<AllocationRequest>, id: nat): (r: Option<AllocationRequest>)
    ensures r.None? <==> forall k :: 0 <= k < |requests| ==> requests[k].id != id
    ensures r.Some? ==> r.value in requests && r.value.id == id
  {
    if requests == [] then None
    else if requests[0].id == id then Some(requests[0])
    else FindRequest(requests[1..], id)
  }

  /** Like `find`, `FindRequest` returns the first logged request with the
      id: every request before it has another id. */
  lemma {:induction false} FindRequestFirst(requests: seq<AllocationRequest>, id: nat)
    ensures var r := FindRequest(requests, id);
      r.Some? ==> exists k :: (0 <= k < |requests| && requests[k] == r.value &&
        forall j :: 0 <= j < k ==> requests[j].id != id)
  {
    if requests != [] && requests[0].id != id {
      var rest := FindRequest(requests[1..], id);
      FindRequestFirst(requests[1..], id);
      if rest.Some? {
        var k :| 0 <= k < |requests[1..]| && requests[1..][k] == rest.value &&
          forall j :: 0 <= j < k ==> requests[1..][j].id != id;
        assert requests[k + 1] == rest.value;
        forall j | 0 <= j < k + 1 ensures requests[j].id != id {
          if j > 0 { assert requests[j] == requests[1..][j - 1]; }
        }
      }
    }
  }

  /** `prev.filter(req => req.id !== id)`. */
  function RemoveRequest(requests: seq<AllocationRequest>, id: nat): (r: seq<AllocationRequest>)
    ensures forall k :: 0 <= k < |r| ==> r[k] in requests && r[k].id != id
    ensures forall k :: 0 <= k < |requests| && requests[k].id != id ==> requests[k] in r
  {
    Filter(requests, (q: AllocationRequest) => q.id != id)
  }

  lemma RemoveRequestKeepsUnique(requests: seq<AllocationRequest>, id: nat)
    requires UniqueRequestIds(requests)
    ensures UniqueRequestIds(RemoveRequest(requests, id))
  {
    FilterPreservesPairwise(requests, (q: AllocationRequest) => q.id != id,
                            (a: AllocationRequest, b: AllocationRequest) => a.id != b.id);
  }

  /** Releasing keeps a partition in address order, so the merge loop's
      `sort` leaves it as it is. */
  lemma ReleasedInAddressOrder(blocks: seq<MemoryBlock>, requestId: nat)
    requires Partition(blocks, MemorySize) && UniqueIds(blocks) && OwnersConsistent(blocks)
    ensures SortBy(ReleaseOwner(blocks, requestId), StartOf) == ReleaseOwner(blocks, requestId)
  {
    ReleasePreservesInvariants(blocks, requestId, 0, MemorySize);
    TilesSorted(ReleaseOwner(blocks, requestId), 0, MemorySize);
    SortByIdentity(ReleaseOwner(blocks, requestId), StartOf);
  }

  /** Logging a request under a fresh id keeps request ids unique. */
  lemma AppendFreshRequest(requests: seq<AllocationRequest>, r: AllocationRequest)
    requires UniqueRequestIds(requests)
    requires forall k :: 0 <= k < |requests| ==> requests[k].id != r.id
    ensures UniqueRequestIds(requests + [r])
  {
  }

  /** After removing a request, its id is no longer found. */
  lemma RemoveRequestRemovesId(requests: seq<AllocationRequest>, id: nat)
    ensures FindRequest(RemoveRequest(requests, id), id).None?
  {
  }

  /** The `map` that frees every block owned by the request and clears
      its owner. */
  function ReleaseOwner(blocks: seq<MemoryBlock>, requestId: nat): (r: seq<MemoryBlock>)
    ensures |r| == |blocks|
    ensures forall k :: 0 <= k < |r| ==>
      r[k] == if blocks[k].processId == Some(requestId)
              then blocks[k].(processId := None, processName := None, isAllocated := false)
              else blocks[k]
  {
    seq(|blocks|, k requires 0 <= k < |blocks| =>
      if blocks[k].processId == Some(requestId)
      then blocks[k].(processId := None, processName := None, isAllocated := false)
      else blocks[k])
  }

  lemma ReleasePreservesInvariants(blocks: seq<MemoryBlock>, requestId: nat, lo: int, hi: int)
    requires Tiles(blocks, lo, hi) && UniqueIds(blocks) && OwnersConsistent(blocks)
    ensures var r := ReleaseOwner(blocks, requestId);
      Tiles(r, lo, hi) && UniqueIds(r) && OwnersConsistent(r)
    ensures forall k :: 0 <= k < |blocks| ==> ReleaseOwner(blocks, requestId)[k].processId != Some(requestId)
  {
  }

  /** Two neighbours that the merge loop joins: both free and contiguous. */
  predicate Mergeable(a: MemoryBlock, b: MemoryBlock)
  {
    !a.isAllocated && !b.isAllocated && a.start + a.size == b.start
  }

  /** One iteration of the merge loop: grow the last merged block by
      `block.size`, or push `block`. */
  function PushBlock(merged: seq<MemoryBlock>, block: MemoryBlock): seq<MemoryBlock>
  {
    if |merged| > 0 && Mergeable(merged[|merged| - 1], block) then
      merged[..|merged| - 1] + [merged[|merged| - 1].(size := merged[|merged| - 1].size + block.size)]
    else merged + [block]
  }

  /** The merge loop run over the whole of `s`. */
  function Coalesce(s: seq<MemoryBlock>): seq<MemoryBlock>
  {
    if s == [] then [] else PushBlock(Coalesce(s[..|s| - 1]), s[|s| - 1])
  }

  predicate NoMergeableNeighbours(s: seq<MemoryBlock>)
  {
    forall k :: 0 <= k < |s| - 1 ==> !Mergeable(s[k], s[k + 1])
  }

  /** `b` is block `a` with possibly another size. */
  predicate SameBlockApartFromSize(a: MemoryBlock, b: MemoryBlock)
  {
    a.id == b.id && a.start == b.start && a.processId == b.processId &&
    a.processName == b.processName && a.isAllocated == b.isAllocated
  }

  lemma PushBlockTiles(c: seq<MemoryBlock>, b: MemoryBlock, lo: int)
    requires Tiles(c, lo, b.start) && b.size > 0
    ensures Tiles(PushBlock(c, b), lo, b.start + b.size)
  {
    if |c| > 0 && Mergeable(c[|c| - 1], b) {
      var last := c[|c| - 1];
      TilesInit(c, lo, b.start);
      TilesSnoc(c[..|c| - 1], lo, last.start, last.(size := last.size + b.size));
    } else {
      TilesSnoc(c, lo, b.start, b);
    }
  }

  /** Merging a tiling gives a tiling of the same range. */
  lemma {:induction false} CoalesceTiles(s: seq<MemoryBlock>, lo: int, hi: int)
    requires Tiles(s, lo, hi)
    ensures Tiles(Coalesce(s), lo, hi)
  {
    if s != [] {
      var init, b := s[..|s| - 1], s[|s| - 1];
      TilesInit(s, lo, hi);
      CoalesceTiles(init, lo, b.start);
      PushBlockTiles(Coalesce(init), b, lo);
    }
  }

  /** Merging conserves the total size. */
  lemma {:induction false} CoalesceSum(s: seq<MemoryBlock>)
    ensures SumSizes(Coalesce(s)) == SumSizes(s)
  {
    if s != [] {
      var init, b := s[..|s| - 1], s[|s| - 1];
      CoalesceSum(init);
      assert s == init + [b];
      SumSizesAppend(init, [b]);
      PushBlockSum(Coalesce(init), b);
    }
  }

  /** Pushing a block, merged or not, adds its size to the total. */
  lemma PushBlockSum(c: seq<MemoryBlock>, b: MemoryBlock)
    ensures SumSizes(PushBlock(c, b)) == SumSizes(c) + SumSizes([b])
  {
    if |c| > 0 && Mergeable(c[|c| - 1], b) {
      var last := c[|c| - 1];
      assert c == c[..|c| - 1] + [last];
      SumSizesAppend(c[..|c| - 1], [last]);
      SumSizesAppend(c[..|c| - 1], [last.(size := last.size + b.size)]);
    } else {
      SumSizesAppend(c, [b]);
    }
  }

  /** After merging, no two neighbours are both free and contiguous. */
  lemma {:induction false} CoalesceNoMergeable(s: seq<MemoryBlock>)
    ensures NoMergeableNeighbours(Coalesce(s))
  {
    if s != [] {
      var init, b := s[..|s| - 1], s[|s| - 1];
      CoalesceNoMergeable(init);
      var c := Coalesce(init);
      if |c| > 0 && Mergeable(c[|c| - 1], b) {
        var last := c[|c| - 1];
        var r := c[..|c| - 1] + [last.(size := last.size + b.size)];
        forall k | 0 <= k < |r| - 1
          ensures !Mergeable(r[k], r[k + 1])
        {
          assert r[k] == c[k];
          if k + 1 < |c| - 1 { assert r[k + 1] == c[k + 1]; }
        }
      }
    }
  }

  lemma PushBlockShape(c: seq<MemoryBlock>, b: MemoryBlock)
    ensures var r := PushBlock(c, b);
      && (|r| == |c| || |r| == |c| + 1)
      && (forall i :: 0 <= i < |c| && i < |r| ==> SameBlockApartFromSize(r[i], c[i]))
      && (|r| == |c| + 1 ==> r[|c|] == b)
  {
  }

  /** Every merged block is an input block whose size may have grown: the
      leftmost block of each merged run survives. */
  lemma {:induction false} CoalesceOrigins(s: seq<MemoryBlock>)
    ensures forall i :: 0 <= i < |Coalesce(s)| ==>
      exists j :: 0 <= j < |s| && SameBlockApartFromSize(Coalesce(s)[i], s[j])
  {
    if s != [] {
      var init, b := s[..|s| - 1], s[|s| - 1];
      CoalesceOrigins(init);
      var c := Coalesce(init);
      var r := Coalesce(s);
      assert r == PushBlock(c, b);
      PushBlockShape(c, b);
      forall i | 0 <= i < |r|
        ensures exists j :: 0 <= j < |s| && SameBlockApartFromSize(r[i], s[j])
      {
        if i < |c| {
          var j :| 0 <= j < |init| && SameBlockApartFromSize(c[i], init[j]);
          assert init[j] == s[j];
          assert SameBlockApartFromSize(r[i], c[i]);
          assert 0 <= j < |s| && SameBlockApartFromSize(r[i], s[j]);
        } else {
          assert r[i] == b == s[|s| - 1];
          assert SameBlockApartFromSize(r[i], s[|s| - 1]);
        }
      }
    } else {
      assert Coalesce(s) == [];
    }
  }

  /** One iteration of the merge loop keeps the merged blocks sorted by
      address when the next block starts no earlier than the last one. */
  lemma PushBlockSorted(c: seq<MemoryBlock>, b: MemoryBlock)
    requires Sorted(c, StartOf) && (|c| > 0 ==> c[|c| - 1].start <= b.start)
    ensures var r := PushBlock(c, b);
      Sorted(r, StartOf) && |r| > 0 && r[|r| - 1].start <= b.start
  {
    if |c| > 0 && Mergeable(c[|c| - 1], b) {
      var last := c[|c| - 1];
      var r := c[..|c| - 1] + [last.(size := last.size + b.size)];
      forall i, j | 0 <= i < j < |r|
        ensures r[i].start <= r[j].start
      {
        assert r[i].start == c[i].start && r[j].start == c[j].start;
      }
    } else {
      var r := c + [b];
      forall i, j | 0 <= i < j < |r|
        ensures r[i].start <= r[j].start
      {
        if j < |c| {
          assert r[i] == c[i] && r[j] == c[j];
        } else {
          assert r[i].start <= c[|c| - 1].start || i == |c|;
        }
      }
    }
  }

  /** Merging a list sorted by address gives a list sorted by address. */
  lemma {:induction false} CoalesceSorted(s: seq<MemoryBlock>)
    requires Sorted(s, StartOf)
    ensures Sorted(Coalesce(s), StartOf)
    ensures |s| > 0 ==> |Coalesce(s)| > 0 && Coalesce(s)[|Coalesce(s)| - 1].start <= s[|s| - 1].start
  {
    if s != [] {
      var init, b := s[..|s| - 1], s[|s| - 1];
      assert Sorted(init, StartOf);
      CoalesceSorted(init);
      var c := Coalesce(init);
      if |c| > 0 {
        assert c[|c| - 1].start <= init[|init| - 1].start <= b.start;
      }
      PushBlockSorted(c, b);
    }
  }

  /** One iteration of the merge loop keeps the allocated blocks: growing
      a free block or appending a block changes only free blocks, or adds
      the appended one. */
  lemma PushBlockAllocated(c: seq<MemoryBlock>, b: MemoryBlock)
    ensures Filter(PushBlock(c, b), IsAllocated) == Filter(c, IsAllocated) + Filter([b], IsAllocated)
  {
    if |c| > 0 && Mergeable(c[|c| - 1], b) {
      var init, last := c[..|c| - 1], c[|c| - 1];
      assert c == init + [last];
      FilterReplaceLast(init, last, last.(size := last.size + b.size), b, IsAllocated);
    } else {
      assert PushBlock(c, b) == c + [b];
      FilterAppend(c, [b], IsAllocated);
    }
  }

  /** Merging leaves the allocated blocks, in order, exactly as they were. */
  lemma {:induction false} CoalesceAllocated(s: seq<MemoryBlock>)
    ensures Filter(Coalesce(s), IsAllocated) == Filter(s, IsAllocated)
  {
    if s != [] {
      var init, b := s[..|s| - 1], s[|s| - 1];
      CoalesceAllocated(init);
      assert s == init + [b];
      FilterAppend(init, [b], IsAllocated);
      PushBlockAllocated(Coalesce(init), b);
    }
  }

  /** Merging a valid block list keeps every invariant of the page state. */
  lemma CoalescePreservesInvariants(s: seq<MemoryBlock>, lo: int, hi: int)
    requires Tiles(s, lo, hi) && UniqueIds(s) && OwnersConsistent(s)
    ensures var c := Coalesce(s);
      Tiles(c, lo, hi) && UniqueIds(c) && OwnersConsistent(c)
  {
    var c := Coalesce(s);
    CoalesceTiles(s, lo, hi);
    CoalesceOrigins(s);
    TilesStrictlyIncreasing(c, lo, hi);
    TilesStrictlyIncreasing(s, lo, hi);
    forall p, q | 0 <= p < q < |c|
      ensures c[p].id != c[q].id
    {
      var jp :| 0 <= jp < |s| && SameBlockApartFromSize(c[p], s[jp]);
      var jq :| 0 <= jq < |s| && SameBlockApartFromSize(c[q], s[jq]);
      assert s[jp].start < s[jq].start;
    }
    forall k | 0 <= k < |c|
      ensures (c[k].isAllocated <==> c[k].processId.Some?) && (c[k].isAllocated <==> c[k].processName.Some?)
    {
      var j :| 0 <= j < |s| && SameBlockApartFromSize(c[k], s[j]);
    }
  }

  /** `mergeAdjacentFreeBlocks`: sort by start address, then one pass
      that grows the last merged block or pushes the next one. */
  /** One more block of the sorted list goes through one iteration. */
  lemma CoalescePrefix(s: seq<MemoryBlock>, i: nat)
    requires i < |s|
    ensures Coalesce(s[..i + 1]) == PushBlock(Coalesce(s[..i]), s[i])
  {
    assert s[..i + 1][..i] == s[..i];
  }

  method MergeAdjacentFreeBlocks(blocks: seq<MemoryBlock>) returns (merged: seq<MemoryBlock>)
    ensures merged == Coalesce(SortBy(blocks, StartOf))
  {
    var sortedBlocks := SortBy(blocks, StartOf);
    merged := [];
    for i := 0 to |sortedBlocks|
      invariant merged == Coalesce(sortedBlocks[..i])
    {
      var block := sortedBlocks[i];
      CoalescePrefix(sortedBlocks, i);
      if |merged| == 0 {
        merged := merged + [block];
        continue;
      }
      var lastBlock := merged[|merged| - 1];
      if !lastBlock.isAllocated && !block.isAllocated && lastBlock.start + lastBlock.size == block.start {
        merged := merged[..|merged| - 1] + [lastBlock.(size := lastBlock.size + block.size)];
      } else {
        merged := merged + [block];
      }
    }
    assert sortedBlocks[..|sortedBlocks|] == sortedBlocks;
  }

  /** What `mergeAdjacentFreeBlocks` returns is sorted by address, has no
      two neighbours that are free and contiguous, keeps the total size,
      and keeps the allocated blocks, in address order, unchanged. */
  lemma MergedBlocksFacts(blocks: seq<MemoryBlock>)
    ensures var merged := Coalesce(SortBy(blocks, StartOf));
      && Sorted(merged, StartOf)
      && NoMergeableNeighbours(merged)
      && SumSizes(merged) == SumSizes(blocks)
      && Filter(merged, IsAllocated) == Filter(SortBy(blocks, StartOf), IsAllocated)
  {
    var sortedBlocks := SortBy(blocks, StartOf);
    CoalesceSorted(sortedBlocks);
    CoalesceNoMergeable(sortedBlocks);
    CoalesceSum(sortedBlocks);
    SumSizesPermutation(sortedBlocks, blocks);
    CoalesceAllocated(sortedBlocks);
  }

  // ---------------------------------------------------------------------
  // The example workload of `loadExampleData`

  function ExampleNames(): seq<string> { ["System", "Browser", "Editor", "Player"] }
  function ExampleSizes(): seq<nat> { [128, 256, 64, 192] }

  /** Where the k-th example request lands: the sum of the earlier sizes. */
  function ExampleOffset(k: nat): nat
    requires k <= 4
  {
    if k == 0 then 0 else ExampleOffset(k - 1) + ExampleSizes()[k - 1]
  }

  function ExampleRequest(k: nat, now: nat): AllocationRequest
    requires k < 4
  {
    AllocationRequest(now + k, ExampleNames()[k], ExampleSizes()[k], false, None)
  }

  /** The blocks after the first `k` example requests succeeded. */
  function ExampleLayout(k: nat, now: nat, ids: seq<nat>): (r: seq<MemoryBlock>)
    requires k <= 4 && |ids| == 8
  {
    ExampleOffsets();
    seq(k, j requires 0 <= j < k =>
      MemoryBlock(ids[2 * j], ExampleOffset(j), ExampleSizes()[j], Some(now + j), Some(ExampleNames()[j]), true))
    + [MemoryBlock(if k == 0 then 1 else ids[2 * k - 1], ExampleOffset(k), MemorySize - ExampleOffset(k), None, None, false)]
  }

  /** The request log after the first `k` example requests succeeded. */
  function ExampleLog(k: nat, now: nat, ids: seq<nat>): seq<AllocationRequest>
    requires k <= 4 && |ids| == 8
  {
    seq(k, j requires 0 <= j < k => ExampleRequest(j, now).(isAllocated := true, blockId := Some(ids[2 * j])))
  }

  predicate DistinctIds(ids: seq<nat>)
  {
    forall i, j :: 0 <= i < j < |ids| ==> ids[i] != ids[j]
  }

  lemma ExampleOffsets()
    ensures ExampleOffset(0) == 0 && ExampleOffset(1) == 128 && ExampleOffset(2) == 384
    ensures ExampleOffset(3) == 448 && ExampleOffset(4) == 640
  {
  }

  /** The example layout is a valid page state at every stage. */
  lemma ExampleLayoutValid(k: nat, now: nat, ids: seq<nat>)
    requires k <= 4 && |ids| == 8 && DistinctIds(ids)
    ensures var l := ExampleLayout(k, now, ids);
      Partition(l, MemorySize) && UniqueIds(l) && OwnersConsistent(l)
  {
    ExampleOffsets();
    var l := ExampleLayout(k, now, ids);
    forall p | 0 <= p < |l| - 1
      ensures l[p].start + l[p].size == l[p + 1].start
    {
    }
    forall p, q | 0 <= p < q < |l|
      ensures l[p].id != l[q].id
    {
      if q < k {
        assert l[p].id == ids[2 * p] && l[q].id == ids[2 * q];
      } else if k > 0 {
        assert l[p].id == ids[2 * p] && l[q].id == ids[2 * k - 1];
      }
    }
  }

  lemma ExampleFirstFit(k: nat, now: nat, ids: seq<nat>)
    requires k < 4 && |ids| == 8
    ensures FirstFitIndex(ExampleLayout(k, now, ids), ExampleSizes()[k]) == Some(k)
  {
    ExampleOffsets();
    var l := ExampleLayout(k, now, ids);
    assert |l| == k + 1;
    assert Fits(l[k], ExampleSizes()[k]);
    forall j | 0 <= j < k
      ensures !Fits(l[j], ExampleSizes()[k])
    {
      assert l[j].isAllocated;
    }
  }

  lemma ExampleSplit(k: nat, now: nat, ids: seq<nat>)
    requires k < 4 && |ids| == 8
    ensures var l := ExampleLayout(k, now, ids);
      |l| == k + 1 && ExampleSizes()[k] <= l[k].size &&
      SplitBlock(l, k, l[k], ExampleRequest(k, now), ids[2 * k], ids[2 * k + 1]) == ExampleLayout(k + 1, now, ids)
  {
    ExampleOffsets();
    var l := ExampleLayout(k, now, ids);
    var req := ExampleRequest(k, now);
    var next := ExampleLayout(k + 1, now, ids);
    var nb := SplitBlock(l, k, l[k], req, ids[2 * k], ids[2 * k + 1]);
    SplitBlockShape(l, k, l[k], req, ids[2 * k], ids[2 * k + 1]);
    SplitRemainderAt(l, k, l[k], req, ids[2 * k], ids[2 * k + 1]);
    assert |nb| == k + 2 == |next|;
    forall p | 0 <= p < k
      ensures nb[p] == next[p]
    {
      assert nb[p] == nb[..k][p] == l[..k][p] == l[p];
    }
    assert nb[k] == next[k];
    assert nb[k + 1] == next[k + 1];
  }

  /** Step `k` of the example run: First-Fit picks the trailing free block
      and carves the k-th request out of its front. */
  lemma ExampleStep(k: nat, now: nat, ids: seq<nat>)
    requires k < 4 && |ids| == 8 && DistinctIds(ids)
    ensures var r := AllocateMemoryForExample(ExampleRequest(k, now), ExampleLayout(k, now, ids), ids[2 * k], ids[2 * k + 1]);
      r == AllocSuccess(ids[2 * k], ExampleLayout(k + 1, now, ids))
  {
    ExampleLayoutValid(k, now, ids);
    ExampleFirstFit(k, now, ids);
    ExampleSplit(k, now, ids);
  }

  /** Once every block of a tiling is free, merging leaves one free block
      spanning the whole range. */
  lemma {:induction false} AllFreeCoalescesToOne(s: seq<MemoryBlock>, lo: int, hi: int)
    requires Tiles(s, lo, hi) && lo < hi
    requires forall k :: 0 <= k < |s| ==> !s[k].isAllocated
    ensures |Coalesce(s)| == 1
    ensures Coalesce(s)[0].start == lo && Coalesce(s)[0].size == hi - lo && !Coalesce(s)[0].isAllocated
  {
    var c := Coalesce(s);
    CoalesceTiles(s, lo, hi);
    CoalesceNoMergeable(s);
    CoalesceOrigins(s);
    forall k | 0 <= k < |c|
      ensures !c[k].isAllocated
    {
      var j :| 0 <= j < |s| && SameBlockApartFromSize(c[k], s[j]);
    }
    if |c| > 1 {
      assert Mergeable(c[0], c[1]);
      assert false;
    }
  }

  /** Allocation keeps the page invariant: the blocks still partition
      the memory, ids stay unique when the new ids are fresh, and owners
      stay consistent. */
  lemma AllocateMemoryKeepsInvariants(blocks: seq<MemoryBlock>, algorithm: AllocationAlgorithm,
                                      request: AllocationRequest, allocId: nat, remId: nat)
    requires Partition(blocks, MemorySize) && UniqueIds(blocks) && OwnersConsistent(blocks)
    requires request.size > 0 && allocId != remId
    requires forall k :: 0 <= k < |blocks| ==> blocks[k].id != allocId && blocks[k].id != remId
    ensures var r := AllocateMemory(blocks, algorithm, request, allocId, remId);
      r.AllocSuccess? ==>
        Partition(r.newBlocks, MemorySize) && UniqueIds(r.newBlocks) && OwnersConsistent(r.newBlocks)
  {
    var r := AllocateMemory(blocks, algorithm, request, allocId, remId);
    if r.AllocSuccess? {
      var i := SelectBlock(blocks, algorithm, request.size).value;
      assert r.newBlocks == SplitBlock(blocks, i, blocks[i], request, allocId, remId);
      SplitTiles(blocks, i, request, allocId, remId, 0, MemorySize);
      SplitOwnersAndIds(blocks, i, request, allocId, remId);
    }
  }

  /** Releasing a request's blocks and merging keeps the page invariant,
      and afterwards no block is owned by the request. */
  /** The state `deallocateMemory` leaves behind keeps the allocator's
      invariants and no longer holds the request. */
  lemma DeallocatedStateValid(blocks: seq<MemoryBlock>, requests: seq<AllocationRequest>, requestId: nat)
    requires Partition(blocks, MemorySize) && UniqueIds(blocks) && OwnersConsistent(blocks)
    requires UniqueRequestIds(requests)
    ensures var c, q := Coalesce(ReleaseOwner(blocks, requestId)), RemoveRequest(requests, requestId);
      && Partition(c, MemorySize) && UniqueIds(c) && OwnersConsistent(c)
      && (forall k :: 0 <= k < |c| ==> c[k].processId != Some(requestId))
      && UniqueRequestIds(q) && FindRequest(q, requestId).None?
  {
    ReleaseAndMergeKeepsInvariants(blocks, requestId);
    RemoveRequestKeepsUnique(requests, requestId);
    RemoveRequestRemovesId(requests, requestId);
  }

  lemma ReleaseAndMergeKeepsInvariants(blocks: seq<MemoryBlock>, requestId: nat)
    requires Partition(blocks, MemorySize) && UniqueIds(blocks) && OwnersConsistent(blocks)
    ensures var c := Coalesce(ReleaseOwner(blocks, requestId));
      && Partition(c, MemorySize) && UniqueIds(c) && OwnersConsistent(c)
      && (forall k :: 0 <= k < |c| ==> c[k].processId != Some(requestId))
  {
    var released := ReleaseOwner(blocks, requestId);
    ReleasePreservesInvariants(blocks, requestId, 0, MemorySize);
    CoalescePreservesInvariants(released, 0, MemorySize);
    CoalesceOrigins(released);
    var c := Coalesce(released);
    forall k | 0 <= k < |c|
      ensures c[k].processId != Some(requestId)
    {
      var j :| 0 <= j < |released| && SameBlockApartFromSize(c[k], released[j]);
    }
  }

  lemma ExampleLogStep(k: nat, now: nat, ids: seq<nat>)
    requires k < 4 && |ids| == 8
    ensures ExampleLog(k + 1, now, ids) ==
      ExampleLog(k, now, ids) + [ExampleRequest(k, now).(isAllocated := true, blockId := Some(ids[2 * k]))]
  {
  }

  lemma ExampleStart(now: nat, ids: seq<nat>)
    requires |ids| == 8
    ensures ExampleLayout(0, now, ids) == [InitialBlock()]
    ensures ExampleLog(0, now, ids) == []
  {
  }

  /** The page's state: the block list, the request log and the chosen
      policy, each replaced by the page's handlers. */
  class Allocator {
    var memoryBlocks: seq<MemoryBlock>
    var allocationRequests: seq<AllocationRequest>
    var algorithm: AllocationAlgorithm

    /** The blocks partition the whole memory, block ids and request ids
        are unique, and a block has an owner exactly when allocated. */
    ghost predicate Valid()
      reads this
    {
      && Partition(memoryBlocks, MemorySize)
      && UniqueIds(memoryBlocks)
      && OwnersConsistent(memoryBlocks)
      && UniqueRequestIds(allocationRequests)
    }

    /** Mounting the page runs `initializeMemory`; First-Fit is the
        initial policy. */
    constructor()
      ensures Valid()
      ensures memoryBlocks == [InitialBlock()] && allocationRequests == [] && algorithm == FirstFit
    {
      memoryBlocks := [InitialBlock()];
      allocationRequests := [];
      algorithm := FirstFit;
    }

    /** `initializeMemory` (and `resetMemory`, which only calls it). */
    method InitializeMemory()
      modifies this`memoryBlocks, this`allocationRequests
      ensures Valid()
      ensures memoryBlocks == [InitialBlock()] && allocationRequests == []
    {
      memoryBlocks := [InitialBlock()];
      allocationRequests := [];
    }

    /** The policy selector. */
    method SetAlgorithm(selected: AllocationAlgorithm)
      modifies this`algorithm
      ensures algorithm == selected
    {
      algorithm := selected;
    }

    /** `id` is not the id of any logged request. */
    predicate FreshRequestId(id: nat)
      reads this
    {
      forall k :: 0 <= k < |allocationRequests| ==> allocationRequests[k].id != id
    }

    /** `a` and `b` are distinct and not the id of any current block. */
    predicate FreshBlockIds(a: nat, b: nat)
      reads this
    {
      a != b && forall k :: 0 <= k < |memoryBlocks| ==> memoryBlocks[k].id != a && memoryBlocks[k].id != b
    }

    /** `addAllocationRequest`: an invalid form changes nothing; otherwise
        the request is logged, as allocated with its block id when the
        policy found a block (and the blocks are replaced by the split
        list), or as not allocated when it did not. The timestamps the
        page uses as ids are the parameters `requestId`, `allocId` and
        `remId`. */
    method AddAllocationRequest(processName: string, size: int, requestId: nat, allocId: nat, remId: nat)
      returns (outcome: RequestOutcome)
      requires Valid()
      requires FreshRequestId(requestId) && FreshBlockIds(allocId, remId)
      modifies this`memoryBlocks, this`allocationRequests
      ensures Valid()
      ensures ValidateRequest(processName, size).Some? ==>
        && outcome == Rejected(ValidateRequest(processName, size).value)
        && memoryBlocks == old(memoryBlocks)
        && allocationRequests == old(allocationRequests)
      ensures ValidateRequest(processName, size).None? ==>
        var request := AllocationRequest(requestId, processName, size as nat, false, None);
        match AllocateMemory(old(memoryBlocks), old(algorithm), request, allocId, remId)
        case AllocFailed(reason) =>
          && outcome == AllocationFailed(reason)
          && memoryBlocks == old(memoryBlocks)
          && allocationRequests == old(allocationRequests) + [request]
        case AllocSuccess(blockId, newBlocks) =>
          && outcome == Allocated(blockId)
          && memoryBlocks == newBlocks
          && allocationRequests == old(allocationRequests) + [request.(isAllocated := true, blockId := Some(blockId))]
    {
      var error := ValidateRequest(processName, size);
      if error.Some? {
        return Rejected(error.value);
      }
      var request := AllocationRequest(requestId, processName, size as nat, false, None);
      var result := AllocateMemory(memoryBlocks, algorithm, request, allocId, remId);
      AllocateMemoryKeepsInvariants(memoryBlocks, algorithm, request, allocId, remId);
      if result.AllocSuccess? {
        var logged := request.(isAllocated := true, blockId := Some(result.blockId));
        AppendFreshRequest(allocationRequests, logged);
        memoryBlocks := result.newBlocks;
        allocationRequests := allocationRequests + [logged];
        outcome := Allocated(result.blockId);
      } else {
        AppendFreshRequest(allocationRequests, request);
        allocationRequests := allocationRequests + [request];
        outcome := AllocationFailed(result.reason);
      }
    }

    /** `deallocateMemory`: a request that is not logged or not allocated
        changes nothing; otherwise every block it owns is freed, free
        neighbours are merged and the request leaves the log, so no block
        is owned by it any more and a second call changes nothing. */
    method DeallocateMemory(requestId: nat)
      requires Valid()
      modifies this`memoryBlocks, this`allocationRequests
      ensures Valid()
      ensures var request := FindRequest(old(allocationRequests), requestId);
        if request.Some? && request.value.isAllocated then
          && memoryBlocks == Coalesce(ReleaseOwner(old(memoryBlocks), requestId))
          && allocationRequests == RemoveRequest(old(allocationRequests), requestId)
          && (forall k :: 0 <= k < |memoryBlocks| ==> memoryBlocks[k].processId != Some(requestId))
        else
          memoryBlocks == old(memoryBlocks) && allocationRequests == old(allocationRequests)
      ensures FindRequest(allocationRequests, requestId).None? || !FindRequest(allocationRequests, requestId).value.isAllocated
    {
      var request := FindRequest(allocationRequests, requestId);
      if request.Some? && request.value.isAllocated {
        ReleaseRequest(requestId);
      }
    }

    /** The part of `deallocateMemory` past the guard: free the request's
        blocks, merge free neighbours and drop the request from the log. */
    method ReleaseRequest(requestId: nat)
      requires Valid()
      modifies this`memoryBlocks, this`allocationRequests
      ensures Valid()
      ensures memoryBlocks == Coalesce(ReleaseOwner(old(memoryBlocks), requestId))
      ensures allocationRequests == RemoveRequest(old(allocationRequests), requestId)
      ensures forall k :: 0 <= k < |memoryBlocks| ==> memoryBlocks[k].processId != Some(requestId)
      ensures FindRequest(allocationRequests, requestId).None?
    {
      var newBlocks := ReleaseOwner(memoryBlocks, requestId);
      ReleasedInAddressOrder(memoryBlocks, requestId);
      var mergedBlocks := MergeAdjacentFreeBlocks(newBlocks);
      var remaining := RemoveRequest(allocationRequests, requestId);
      DeallocatedStateValid(memoryBlocks, allocationRequests, requestId);
      memoryBlocks, allocationRequests := mergedBlocks, remaining;
    }

    /** `loadExampleData`: from a fresh memory, the four example requests
        are placed First-Fit one after another; all four fit, so the
        memory ends as four allocated blocks from address 0 followed by
        one free block, and the log holds the four requests as allocated.
        The page's timestamps are `now` (request `k` gets `now + k`) and
        the eight block ids `ids`. */
    method LoadExampleData(now: nat, ids: seq<nat>)
      requires |ids| == 8 && DistinctIds(ids)
      modifies this`memoryBlocks, this`allocationRequests
      ensures Valid()
      ensures memoryBlocks == ExampleLayout(4, now, ids)
      ensures allocationRequests == ExampleLog(4, now, ids)
    {
      InitializeMemory();
      var currentBlocks := [InitialBlock()];
      var successfulRequests: seq<AllocationRequest> := [];
      ExampleStart(now, ids);
      for i := 0 to 4
        invariant currentBlocks == ExampleLayout(i, now, ids)
        invariant successfulRequests == ExampleLog(i, now, ids)
      {
        var request := ExampleRequest(i, now);
        var result := AllocateMemoryForExample(request, currentBlocks, ids[2 * i], ids[2 * i + 1]);
        ExampleStep(i, now, ids);
        ExampleLogStep(i, now, ids);
        if result.AllocSuccess? {
          successfulRequests := successfulRequests + [request.(isAllocated := true, blockId := Some(result.blockId))];
          currentBlocks := result.newBlocks;
        }
      }
      ExampleLayoutValid(4, now, ids);
      memoryBlocks := currentBlocks;
      allocationRequests := successfulRequests;
    }
  }
}
