# os-simulation-lab in Dafny

os-simulation-lab is a teaching app with two simulators.

- **Contiguous memory allocation page.** A memory of 1024 KB is a list of blocks. Requests are placed First-Fit, Best-Fit or Worst-Fit, and the chosen block is split. Freeing a request's block merges adjacent free blocks. A statistics card rates the resulting memory, and a bar shows usage, fragmentation and a colour per owner.
- **CPU scheduling page.** It keeps a list of processes and a clock. An interval timer fires one tick at a time. Each tick selects a process by FCFS, SJF (shortest remaining time), Priority or Round Robin, and runs it for one unit. A statistics card reports averages, throughput and CPU utilization.
- **Test file.** It holds reference non-preemptive FCFS and SJF schedulers and index-returning fit loops, together with the outcomes it expects of them.

This project models those parts, module by module:

| module | file | models |
|---|---|---|
| `Common` | common.dfy | `Option`, filtering, sums, `Math.max`/`Math.min` over lists, exact ratios and percentages, JavaScript `trim()` blankness |
| `Sorting` | sorting.dfy | JavaScript's stable `sort` by a numeric key, and "first element with the smallest key" |
| `MemoryAllocation` | memory_allocation.dfy | the memory page: blocks, validation, policy selection, split, release, merge, the example data, and the page state as the class `Allocator` |
| `AllocationStatistics` | allocation_statistics.dfy | the memory statistics card |
| `MemoryVisualization` | memory_visualization.dfy | the memory bar's figures and colours |
| `ProcessScheduling` | process_scheduling.dfy | the process record and the pure page operations (new process, reset, example data) |
| `ProcessQueue` | process_queue.dfy | process selection and the scheduler tick as functions, the queue views, and the properties of a tick |
| `SchedulingSimulator` | scheduling_simulator.dfy | the scheduling page state as the class `Simulation`, with the tick's two loops as methods |
| `ProcessStatistics` | process_statistics.dfy | the scheduling statistics card |
| `ReferenceAlgorithms` | reference_algorithms.dfy | the test file's reference schedulers and fit loops, and its expected outcomes |

Percentages and averages are exact `real` ratios. The state of each page lives in a class whose methods change its fields. A method that contains a loop is proved equal to a recursive function, and the properties are proved about that function.

## Model

| member | source | states |
|---|---|---|
| MemoryAllocation.InitialIsPartition | src/pages/MemoryAllocation.tsx:72-81 | the reset block list (one free block from 0 of size 1024) partitions the memory, sums to 1024, and has unique ids and consistent owners |
| MemoryAllocation.Allocator.InitializeMemory | src/pages/MemoryAllocation.tsx:72-81 | the blocks become the single free block, the request log becomes empty, and the page invariant holds |
| MemoryAllocation.Allocator.constructor | src/pages/MemoryAllocation.tsx:56-70 | the page starts with the reset memory, an empty log and First-Fit |
| MemoryAllocation.ValidateRequest | src/pages/MemoryAllocation.tsx:85-95 | no error exactly when the trimmed name is non-blank and 0 < size <= 1024. A blank name or a size <= 0 gives the first alert; otherwise a size > 1024 gives the second |
| MemoryAllocation.FirstFitIndex | src/pages/MemoryAllocation.tsx:138-140 | none exactly when no block is free and large enough; otherwise the first block that is |
| MemoryAllocation.BestFitIndex | src/pages/MemoryAllocation.tsx:142-149 | none exactly when nothing fits; otherwise a fitting block of minimum size, with no earlier fitting block of that size (strict `<` keeps the earliest) |
| MemoryAllocation.WorstFitIndex | src/pages/MemoryAllocation.tsx:151-158 | none exactly when nothing fits; otherwise a fitting block of maximum size, the earliest of them |
| MemoryAllocation.SelectBlock | src/pages/MemoryAllocation.tsx:137-159 | whichever policy is active, a block is chosen exactly when one fits, and it fits |
| MemoryAllocation.FindIndexOwnId | src/pages/MemoryAllocation.tsx:166-167 | with unique block ids, `findIndex` by the chosen block's id finds that block's own index |
| MemoryAllocation.AllocateMemory | src/pages/MemoryAllocation.tsx:123-193 | fails exactly when no block fits; the reason is "no free block" exactly when every block is allocated; on success the block id is the new block's, and the list is the chosen block split |
| MemoryAllocation.SplitBlockEffect | src/pages/MemoryAllocation.tsx:166-190 | the split keeps the partition and total size. The blocks before the chosen one are unchanged; the chosen one becomes the allocated block at the same start with the request's size, id and name. A free remainder follows only when the block was larger. The blocks after it are unchanged |
| MemoryAllocation.AllocateMemoryKeepsInvariants | src/pages/MemoryAllocation.tsx:123-193 | a successful allocation on a valid state yields a partition with unique ids and consistent owners |
| MemoryAllocation.Allocator.AddAllocationRequest | src/pages/MemoryAllocation.tsx:84-120 | an invalid form changes nothing and reports its error. Otherwise the request is logged: when allocation fails, as not allocated with unchanged blocks; when it succeeds, as allocated with its block id and the split list. The invariant is kept |
| MemoryAllocation.FindRequest | src/pages/MemoryAllocation.tsx:197 | none exactly when no logged request has the id; otherwise a logged request with that id |
| MemoryAllocation.FindRequestFirst | src/pages/MemoryAllocation.tsx:197 | the request found is the first logged one with the id: every request before it has another id |
| MemoryAllocation.RemoveRequest | src/pages/MemoryAllocation.tsx:217 | keeps exactly the logged requests whose id differs |
| MemoryAllocation.RemoveRequestKeepsUnique | src/pages/MemoryAllocation.tsx:217 | removing a request keeps request ids unique |
| MemoryAllocation.ReleaseOwner | src/pages/MemoryAllocation.tsx:201-211 | each block owned by the request becomes free with no owner; every other block is unchanged |
| MemoryAllocation.ReleasePreservesInvariants | src/pages/MemoryAllocation.tsx:201-211 | releasing keeps the tiling, unique ids and consistent owners, and leaves no block owned by the request |
| MemoryAllocation.MergeAdjacentFreeBlocks | src/pages/MemoryAllocation.tsx:224-246 | the loop's result is the merge of the blocks sorted by start |
| MemoryAllocation.MergedBlocksFacts | src/pages/MemoryAllocation.tsx:224-246 | the merge of the sorted blocks is sorted by start, has no two neighbours that are free and contiguous, keeps the total size, and keeps the allocated blocks, in order, unchanged |
| MemoryAllocation.CoalesceTiles | src/pages/MemoryAllocation.tsx:228-243 | merging a tiling of a range gives a tiling of the same range |
| MemoryAllocation.CoalesceSum | src/pages/MemoryAllocation.tsx:228-243 | merging conserves the total size |
| MemoryAllocation.CoalesceNoMergeable | src/pages/MemoryAllocation.tsx:236-242 | after merging no two neighbours are both free and contiguous |
| MemoryAllocation.CoalesceSorted | src/pages/MemoryAllocation.tsx:225-243 | merging a list sorted by start gives a list sorted by start |
| MemoryAllocation.CoalesceAllocated | src/pages/MemoryAllocation.tsx:237-242 | merging leaves the allocated blocks exactly as they were, in order |
| MemoryAllocation.CoalesceOrigins | src/pages/MemoryAllocation.tsx:237-242 | every merged block is an input block with possibly a larger size (the leftmost block of a run survives) |
| MemoryAllocation.CoalescePreservesInvariants | src/pages/MemoryAllocation.tsx:224-246 | merging keeps the tiling, unique ids and consistent owners |
| MemoryAllocation.AllFreeCoalescesToOne | src/pages/MemoryAllocation.tsx:224-246 | merging an all-free tiling of a range gives one free block spanning it |
| MemoryAllocation.ReleaseAndMergeKeepsInvariants | src/pages/MemoryAllocation.tsx:196-217 | release then merge keeps the page invariant, and no block is owned by the request afterwards |
| MemoryAllocation.Allocator.DeallocateMemory | src/pages/MemoryAllocation.tsx:196-221 | an unknown or unallocated request changes nothing. Otherwise the blocks become the merge of the released list and the request leaves the log, so no block is owned by it. Afterwards the request is absent or unallocated, so a second call changes nothing. The invariant is kept |
| MemoryAllocation.Allocator.ReleaseRequest | src/pages/MemoryAllocation.tsx:200-217 | past the guard: the blocks become the merge of the released list, the request leaves the log and is no longer found there, no block is owned by it, and the invariant is kept |
| MemoryAllocation.DeallocatedStateValid | src/pages/MemoryAllocation.tsx:200-217 | the released and merged blocks still tile memory with unique ids and consistent owners, none owned by the request; the filtered log keeps unique ids and no longer holds the request |
| MemoryAllocation.AllocateMemoryForExample | src/pages/MemoryAllocation.tsx:295-333 | the First-Fit-only split: fails exactly when nothing fits; otherwise the First-Fit block is split |
| MemoryAllocation.ExampleLayoutValid | src/pages/MemoryAllocation.tsx:254-292 | after each of the four example requests the layout is a valid page state |
| MemoryAllocation.ExampleStep | src/pages/MemoryAllocation.tsx:275-288 | the k-th example request fits at address 128, 384, 448 in turn (0 for the first) and succeeds, giving the next layout |
| MemoryAllocation.ExampleOffsets | src/pages/MemoryAllocation.tsx:259-264 | the example requests land at 0, 128, 384 and 448, and fill up to 640 |
| MemoryAllocation.Allocator.LoadExampleData | src/pages/MemoryAllocation.tsx:254-292 | the blocks become four allocated example blocks followed by one free block, the log holds the four requests as allocated, and the invariant holds |
| MemoryAllocation.Allocator.SetAlgorithm | src/pages/MemoryAllocation.tsx:59 | the policy becomes the selected one |
| AllocationStatistics.CalculateAllocationStats | src/components/AllocationStatistics.tsx:27-39 | total is the log length and failed = total - successful >= 0. Failed is 0 exactly when all succeeded. The rate lies in [0, 100] and is 0 with no requests. It is 100 exactly when there are requests and all succeeded, and 0 exactly when none did |
| AllocationStatistics.AllocatedPlusFree | src/components/AllocationStatistics.tsx:43-45 | allocated plus free memory is the total size of the blocks |
| AllocationStatistics.PartitionTotals | src/components/AllocationStatistics.tsx:43-47 | on a partition, allocated plus free is 1024, and no memory is free exactly when every block is allocated |
| AllocationStatistics.CalculateMemoryUtilization | src/components/AllocationStatistics.tsx:42-53 | utilization × 1024 = 100 × allocated. On a partition it lies in [0, 100] and is 100 exactly when every block is allocated |
| AllocationStatistics.ExternalFragmentationBounds | src/components/AllocationStatistics.tsx:69-75 | for non-negative free sizes, the fragmentation lies in [0, 100) and is 0 exactly when the largest free block holds all free memory |
| AllocationStatistics.CalculateFragmentationStats | src/components/AllocationStatistics.tsx:56-83 | counts the free blocks; all figures are 0 with none. The largest is the size of some free block and bounds every free block. The average is total free / count. The fragmentation lies in [0, 100) and is 0 exactly when the largest holds all free memory |
| AllocationStatistics.ExtremeSizesOfFiltered | src/components/AllocationStatistics.tsx:98-101 | `Math.max`/`Math.min` over the filtered sizes are sizes of filtered blocks and bound all of them |
| AllocationStatistics.Variance | src/components/AllocationStatistics.tsx:104-106 | the variance is not negative |
| AllocationStatistics.CalculateAllocationEfficiency | src/components/AllocationStatistics.tsx:86-114 | all 0 with no allocated block. Otherwise the smallest and largest are sizes of allocated blocks and bound every one, smallest <= average <= largest, the average is allocated memory / count, and the variance is not negative |
| AllocationStatistics.RatingFor | src/components/AllocationStatistics.tsx:130-133 | Excellent exactly when score >= 80, Good on [60, 80), Fair on [40, 60), NeedsImprovement below 40 |
| AllocationStatistics.GetPerformanceRating | src/components/AllocationStatistics.tsx:122-134 | a fully allocated partition with a non-empty, all-successful log rates Excellent; the reset memory with no requests rates NeedsImprovement |
| AllocationStatistics.ScoreMonotone | src/components/AllocationStatistics.tsx:127 | the weighted score (40% success, 30% utilization, 30% absence of fragmentation) never falls when the success rate or utilization rises or the external fragmentation falls |
| AllocationStatistics.PerformanceRatingMonotone | src/components/AllocationStatistics.tsx:122-134 | of two memory states, the one whose card shows a success rate and utilization no lower and an external fragmentation no higher never gets a worse rating |
| MemoryVisualization.CalculateMemoryUsage | src/components/MemoryVisualization.tsx:25-41 | allocated + free equals the total size of the blocks (1024 on a partition). The percentage is the statistics card's utilization and lies in [0, 100] on a partition |
| MemoryVisualization.CalculateFragmentation | src/components/MemoryVisualization.tsx:44-59 | 0 with at most one free block or no free memory; always in [0, 100); equal to the statistics card's external fragmentation on every block list |
| MemoryVisualization.ColorIndex | src/components/MemoryVisualization.tsx:76 | an index into the eight colours: the owner id mod 8, or 0 without an owner |
| MemoryVisualization.GetBlockColor | src/components/MemoryVisualization.tsx:65-78 | the grey `#e0e0e0` exactly for free blocks; an allocated block gets the palette colour at its colour index |
| MemoryVisualization.ColorsByOwner | src/components/MemoryVisualization.tsx:71-77 | two owned allocated blocks share a colour exactly when their owner ids agree mod 8 |
| MemoryVisualization.EndAddressesTile | src/components/MemoryVisualization.tsx:199 | on a partition each block's shown end address is at least its start, is one before the next block's start, and the last is 1023 |
| ProcessScheduling.NewProcess | src/pages/ProcessScheduling.tsx:67-78 | a new process is unstarted (remaining = burst, zero counters, waiting) and carries the form's id, name, arrival, burst and priority |
| ProcessScheduling.ResetProcesses | src/pages/ProcessScheduling.tsx:93-100 | same length; each process keeps its definition and is unstarted |
| ProcessScheduling.ResetIdempotent | src/pages/ProcessScheduling.tsx:93-100 | resetting twice is resetting once |
| ProcessScheduling.UnstartedDeterminedByDefinition | src/pages/ProcessScheduling.tsx:93-100 | two unstarted processes with the same definition are equal |
| ProcessScheduling.ExampleProcessesFacts | src/pages/ProcessScheduling.tsx:112-161 | the four example processes have distinct ids and are unstarted |
| ProcessQueue.AvailableProcesses | src/components/ProcessQueue.tsx:68-70 | keeps exactly the processes that have arrived by the admission time and are not completed |
| ProcessQueue.SelectByKey | src/components/ProcessQueue.tsx:131-147 | none exactly when no process has work left; otherwise a process with work whose key is minimal, with no earlier one of equal key (stable sort) |
| ProcessQueue.FindRunning | src/components/ProcessQueue.tsx:151 | none exactly when nothing runs; otherwise the first running process of the list (every earlier process is not running) |
| ProcessQueue.RoundRobinSelect | src/components/ProcessQueue.tsx:149-162 | keeps the running process while its slice is below the quantum and it has work. Otherwise it picks nothing exactly when no process is waiting with work, and else a waiting process with work and the earliest arrival, the first such in list order (the sort is stable), so every waiting process with work before it arrived strictly later |
| ProcessQueue.SelectNextProcess | src/components/ProcessQueue.tsx:127-167 | what is chosen is available and has work. For FCFS, SJF and Priority nothing is chosen exactly when no process has work. If nothing is chosen, no process is waiting with work. FCFS, SJF and Priority choose by `SelectByKey` on arrival time, remaining time and priority; RR chooses by `RoundRobinSelect` |
| ProcessQueue.TickEach | src/components/ProcessQueue.tsx:55-125 | the clock advances by exactly 1. With no selection, nothing else changes. Otherwise every process is dispatched as the first loop says and then gets the waiting-time step of the second loop |
| ProcessQueue.SelectedIsAvailable | src/components/ProcessQueue.tsx:68-78 | the selected process is in the list, available and has work |
| ProcessQueue.TickKeepsDefinitions | src/components/ProcessQueue.tsx:82-113 | a tick keeps every process's definition and the list length, and with unique ids leaves completed processes untouched |
| ProcessQueue.TickRunsOneUnit | src/components/ProcessQueue.tsx:82-85 | the selected process's remaining time drops by exactly 1 and no other process's changes |
| ProcessQueue.TickKeepsAtMostOneRunning | src/components/ProcessQueue.tsx:82-106 | with unique ids, at most one process runs after a tick if at most one did before |
| ProcessQueue.TickAccruesWaiting | src/components/ProcessQueue.tsx:109-113 | every other arrived, uncompleted process with work gains exactly one unit of waiting time |
| ProcessQueue.TickSelectedOutcome | src/components/ProcessQueue.tsx:82-113 | the selected process ends the tick completed with the slice counter reset when its last unit runs. Otherwise under RR it is demoted to waiting, with the counter reset and one unit of waiting gained in the same tick, when the incremented slice reaches the quantum, and else keeps running with the counter one higher. Under FCFS, SJF and Priority it keeps running and the counter is unchanged |
| ProcessQueue.DispatchUpToSlice | src/components/ProcessQueue.tsx:82-106 | with unique ids only the selected process's run moves the slice counter: the loop ends with the counter that run produces from the initial one, or with the initial counter when no process carries the id |
| ProcessQueue.DispatchOneFrom | src/components/ProcessQueue.tsx:82-106 | a dispatched process follows the completion formulas (completion = tick time, turnaround = completion - arrival, waiting = turnaround - burst) or keeps its statistics |
| ProcessQueue.TickKeepsSound | src/components/ProcessQueue.tsx:55-125 | a tick keeps every process's counters consistent with the clock |
| ProcessQueue.UnstartedIsSound | src/pages/ProcessScheduling.tsx:67-78 | a process that has not started is consistent with any clock |
| ProcessQueue.GetReadyQueue | src/components/ProcessQueue.tsx:169-175 | keeps exactly the processes that have arrived by the clock, are waiting and have work |
| ProcessQueue.GetRunningProcess | src/components/ProcessQueue.tsx:177-179 | none exactly when nothing runs; otherwise the first running process of the list |
| ProcessQueue.GetCompletedProcesses | src/components/ProcessQueue.tsx:181-183 | keeps exactly the completed processes |
| ProcessQueue.NegativeWaitingAsWritten | src/components/ProcessQueue.tsx:68-70 | as written, a process arriving at 1 with burst 1 completes in the tick from 0, with waiting time -1 |
| ProcessQueue.AsWrittenWaitingAtLeastMinusOne | src/components/ProcessQueue.tsx:55-125 | as written, a completed process never has a waiting time below -1 |
| ProcessQueue.CorrectedScenario | src/components/ProcessQueue.tsx:68-70 | with admission by the current time, that process waits one tick and completes at 2 with waiting time 0 |
| ProcessQueue.CorrectedTickNeverNegativeWaiting | src/components/ProcessQueue.tsx:55-125 | with admission by the current time, a tick keeps the counters consistent and no completed process has a negative waiting time |
| SchedulingSimulator.DispatchProcesses | src/components/ProcessQueue.tsx:82-106 | the first loop of a tick computes exactly the dispatch of every process and the new slice counter |
| SchedulingSimulator.AccrueWaitingTime | src/components/ProcessQueue.tsx:109-113 | the second loop adds one unit of waiting time to exactly the arrived, waiting processes with work |
| SchedulingSimulator.Simulation.constructor | src/pages/ProcessScheduling.tsx:51-61 | no processes, FCFS, stopped, time 0, quantum 2, slice counter 0 |
| SchedulingSimulator.Simulation.AddProcess | src/pages/ProcessScheduling.tsx:64-87 | a blank name changes nothing; otherwise exactly one new unstarted process is appended and the others are unchanged; the invariant is kept |
| SchedulingSimulator.Simulation.ResetSimulation | src/pages/ProcessScheduling.tsx:90-101 | stopped, time 0, every process reset; the invariant is kept |
| SchedulingSimulator.Simulation.ClearAllProcesses | src/pages/ProcessScheduling.tsx:104-108 | no processes, time 0, stopped |
| SchedulingSimulator.Simulation.LoadExampleData | src/pages/ProcessScheduling.tsx:111-166 | the four example processes, time 0, stopped; the invariant holds |
| SchedulingSimulator.Simulation.SetAlgorithm | src/pages/ProcessScheduling.tsx:192-200 | the algorithm becomes the selected one |
| SchedulingSimulator.Simulation.SetTimeQuantum | src/pages/ProcessScheduling.tsx:208-213 | the quantum becomes the entered one |
| SchedulingSimulator.Simulation.ToggleRunning | src/pages/ProcessScheduling.tsx:222-230 | start/pause flips the running flag |
| SchedulingSimulator.SimulateTick | src/components/ProcessQueue.tsx:57-113 | the new processes, clock and slice counter that one pass of the tick body computes are exactly those of the tick function that admits by the current time |
| SchedulingSimulator.Simulation.Tick | src/components/ProcessQueue.tsx:55-125 | processes, clock and slice counter become those of a tick that admits by the current time. The ids stay unique, at most one process runs, the counters stay consistent, and no completed process has a negative waiting time |
| ProcessStatistics.CalculateAverages | src/components/ProcessStatistics.tsx:20-51 | all 0 with no completed process. Otherwise the averages are sums over completed processes divided by their count, and the average waiting time lies between the least and greatest completed waiting time. Throughput is count / latest completion and CPU utilization is bursts / latest completion × 100 when the latest completion is positive, else both are 0 |
| ProcessStatistics.CompletedWaitingTimesBounded | src/components/ProcessStatistics.tsx:20-34 | every completed waiting time lies between the least and the greatest |
| ProcessStatistics.OnlyCompletedCount | src/components/ProcessStatistics.tsx:20 | the figures of a list equal those of its completed processes alone |
| ProcessStatistics.UnfinishedProcessChangesNothing | src/components/ProcessStatistics.tsx:20 | adding a process that has not completed changes no figure |
| ProcessStatistics.SoundAverages | src/components/ProcessStatistics.tsx:22-51 | with consistent counters, 0 <= average waiting <= average turnaround, and throughput and CPU utilization are not negative |
| ProcessStatistics.NegativeAverageAsWritten | src/components/ProcessStatistics.tsx:32-34 | after the as-written tick of the negative-waiting input, the card shows an average waiting time of -1 |
| ReferenceAlgorithms.RunToCompletion | src/tests/scheduling.test.ts:23-36 | a process run from a start time completes with its definition kept, starts at completion - burst, has turnaround = completion - arrival, and waited start - arrival |
| ReferenceAlgorithms.FcfsFromFacts | src/tests/scheduling.test.ts:22-37 | each process keeps its definition, is completed and has waiting >= 0; each starts no earlier than the previous completion, the first no earlier than the clock |
| ReferenceAlgorithms.FcfsLastCompletion | src/tests/scheduling.test.ts:22-37 | with non-negative bursts the last completion is at least the clock plus all bursts |
| ReferenceAlgorithms.FcfsScheduleFacts | src/tests/scheduling.test.ts:18-38 | the result is the input reordered (same definitions, as a multiset), in arrival order, all completed with waiting >= 0, and with non-negative bursts the completion times never decrease |
| ReferenceAlgorithms.FcfsScheduling | src/tests/scheduling.test.ts:18-38 | the method computes the FCFS schedule function |
| ReferenceAlgorithms.ShortestArrived | src/tests/scheduling.test.ts:48-57 | none exactly when nothing has arrived; otherwise an arrived process with minimal burst, the earliest of them (strict `<` in the reduce) |
| ReferenceAlgorithms.EarliestArrivalArrives | src/tests/scheduling.test.ts:50-52 | after the clock jumps to the earliest remaining arrival, some process has arrived |
| ReferenceAlgorithms.SjfFromFacts | src/tests/scheduling.test.ts:46-74 | the SJF schedule lists every input once (same definitions, as a multiset), all completed with waiting >= 0 |
| ReferenceAlgorithms.SjfIdleStep | src/tests/scheduling.test.ts:50-52 | an idle step leaves the schedule still to come unchanged and makes a process available |
| ReferenceAlgorithms.SjfRunStep | src/tests/scheduling.test.ts:55-73 | a running step appends the next entry of the schedule |
| ReferenceAlgorithms.SjfScheduling | src/tests/scheduling.test.ts:41-77 | the method computes the SJF schedule function |
| ReferenceAlgorithms.FirstFitAllocation | src/tests/scheduling.test.ts:87-94 | the loop returns the First-Fit index of the page's selection, or -1 when nothing fits |
| ReferenceAlgorithms.BestFitAllocation | src/tests/scheduling.test.ts:96-108 | the loop returns the Best-Fit index of the page's selection, or -1 when nothing fits |
| ReferenceAlgorithms.WorstFitAllocation | src/tests/scheduling.test.ts:110-122 | the loop returns the Worst-Fit index of the page's selection, or -1 when nothing fits |
| ReferenceAlgorithms.FcfsScenario | src/tests/scheduling.test.ts:144-178 | FCFS on P1..P4: P1 completes at 8 waiting 0, P2 at 12 waiting 7, P3 at 21 waiting 10, P4 at 26 waiting 18; the average wait lies in (0, 20) |
| ReferenceAlgorithms.SjfScenario | src/tests/scheduling.test.ts:156-170 | SJF on P1..P4 runs P1, P2, P4, P3 |
| ReferenceAlgorithms.MetricsScenario | src/tests/scheduling.test.ts:210-239 | FCFS on P1, P2: the latest completion is 12, throughput 2/12 lies in (0, 1], CPU utilization is 100 |
| ReferenceAlgorithms.FcfsMetricsBounded | src/tests/scheduling.test.ts:222-239 | for any FCFS schedule with bursts >= 1: throughput <= 1 and CPU utilization <= 100 |
| ReferenceAlgorithms.FitScenarios | src/tests/scheduling.test.ts:181-207 | on free blocks of 100, 500, 200, 300 KB a 150 KB request gets First-Fit 1, Best-Fit 2, Worst-Fit 1, and 1000 KB gets -1 |
| Sorting.SortBy | src/components/ProcessQueue.tsx:133-135 | the sort is a permutation and is ordered by the key |
| Sorting.SortByIdentity | src/tests/scheduling.test.ts:19 | sorting a list already in key order changes nothing |
| Sorting.FirstMinIndex | src/pages/MemoryAllocation.tsx:145-147 | none exactly when nothing is picked; otherwise a picked element with the least key and no earlier picked element of that key |

## Left out

- Rendering: the React/Ionic views, alerts, chips, the Gantt timeline and the memory bar layout. They are presentation only. Alert texts become the enumerations `ValidationError` and `AllocFailure`.
- The `setInterval`/`useEffect` loop that fires ticks, and the `try/catch` around a tick. `Simulation.Tick` is one tick. The `catch` cannot be reached in the model, since nothing in a tick throws.
- `Date.now()` and `Math.random()` ids. They are parameters. Methods that create ids require them to be fresh.
- The rounding `Math.round(x * 100) / 100` of every displayed figure. Figures are exact ratios. The source feeds the rounded figures into the rating. Rounding can move a score across a threshold only within 0.01, and the model rates the exact score.
- `parseInt` of the quantum field, and its `NaN` case. `SetTimeQuantum` takes an integer.
- Aliasing: `[...processes]` copies the list but not the process objects, so a tick also mutates the objects held by the previous state. Likewise the merge of adjacent free blocks (src/pages/MemoryAllocation.tsx:234-239) grows the earlier free block in place, so it mutates a block object shared with the previous list of blocks. Neither change can be observed through the pages, and the model uses values, so the previous state is untouched.
- `SchedulingSimulator.Simulation.Tick`: it admits by the current time, the corrected behaviour of the finding below. The as-written tick is `ProcessQueue.SimulateScheduling`, and its bound is `ProcessQueue.AsWrittenWaitingAtLeastMinusOne`.
- Round Robin returns to the earliest-arriving waiting process rather than rotating. A process it demotes still gains waiting time in the same tick (`ProcessQueue.TickSelectedOutcome`). Both are modelled as written.
- `resetSimulation`, `clearAllProcesses` and `loadExampleData` do not reset the queue's slice counter. The model keeps it as well.
- `sjfScheduling` locates the reduce's result with `indexOf`, by reference (src/tests/scheduling.test.ts:55-57, 73). The model compares values, not references, and removes the index of the first arrived process with the least burst. The two agree even when the caller passes the same object twice. The strict `<` reduce keeps the first such process in list order. `indexOf` returns the first position holding that object. Any earlier position holding the same object would have arrived with the same burst, so the reduce would have kept it instead. The position `indexOf` finds is therefore the one the reduce chose.
- Common.IsBlank: covers the whitespace characters listed in the model, not every Unicode space separator that `trim()` strips.
- The performance monitor, help text, explanations and home page are not part of this model. They are browser timing and static text.

## Findings

| source | as written | input that shows it | evidently intended | confidence | as-written member | corrected member |
|---|---|---|---|---|---|---|
| src/components/ProcessQueue.tsx:68-70 | a tick admits processes that arrive by the new time (`currentTime + 1`), and the waiting-time loop at lines 109-113 uses the new time as well | one process arriving at 1 with burst 1, FCFS, at time 0: it runs in the tick from 0 to 1 and completes at 1 with turnaround 0 and waiting time -1; the statistics card then shows an average waiting time of -1 | admit a process only once it has arrived, by the current time, as the test file's reference schedulers do; no completed process then has a negative waiting time | medium, not executed | ProcessQueue.NegativeWaitingAsWritten | ProcessQueue.CorrectedTickNeverNegativeWaiting |
