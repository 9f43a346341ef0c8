/** The reference algorithms of the test suite: non-preemptive FCFS and
    SJF schedules that run each process to completion, and the
    index-returning First-Fit, Best-Fit and Worst-Fit loops, together with
    the outcomes the tests expect of them. */
module ReferenceAlgorithms {
  import opened Common
  import opened Sorting
  import opened ProcessScheduling
  import opened ProcessQueue
  import opened ProcessStatistics
  import opened MemoryAllocation

  // ---------------------------------------------------------------------
  // Running a process to completion

  /** `p` run without interruption from `start`: completed, with the
      statistics of that run; it waited from its arrival to its start.
      Both loops below compute these four values inline. */
  function RunToCompletion(p: Process, start: int): (q: Process)
    ensures Definition(q) == Definition(p) && q.state == Completed
    ensures q.completionTime - q.burstTime == start
    ensures q.turnaroundTime == q.completionTime - q.arrivalTime
    ensures q.waitingTime == start - p.arrivalTime
  {
    var completionTime := start + p.burstTime;
    var turnaroundTime := completionTime - p.arrivalTime;
    p.(completionTime := completionTime, turnaroundTime := turnaroundTime,
       waitingTime := turnaroundTime - p.burstTime, state := Completed)
  }

  function Definitions(s: seq<Process>): (r: seq<ProcessDefinition>)
    ensures |r| == |s| && forall i :: 0 <= i < |s| ==> r[i] == Definition(s[i])
  {
    seq(|s|, i requires 0 <= i < |s| => Definition(s[i]))
  }

  // ---------------------------------------------------------------------
  // FCFS

  /** The `map` of `fcfsScheduling` over processes already in order,
      with the clock at `clock`: each starts when it has arrived and the
      previous one has completed. */
  function FcfsFrom(s: seq<Process>, clock: int): (r: seq<Process>)
    ensures |r| == |s|
  {
    if s == [] then []
    else
      var p := RunToCompletion(s[0], Max(clock, s[0].arrivalTime));
      [p] + FcfsFrom(s[1..], p.completionTime)
  }

  /** `fcfsScheduling`: by arrival (stable), from time 0. */
  function FcfsSchedule(ps: seq<Process>): seq<Process>
  {
    FcfsFrom(SortBy(ps, ArrivalKey), 0)
  }

  /** An FCFS schedule keeps each process's definition, in order,
      completes every process, starts none before its arrival (so no
      waiting time is negative), and starts each one no earlier than the
      previous one completes; the first starts no earlier than `clock`. */
  lemma {:induction false} FcfsFromFacts(s: seq<Process>, clock: int)
    ensures var r := FcfsFrom(s, clock);
      forall i :: 0 <= i < |s| ==>
        Definition(r[i]) == Definition(s[i]) && r[i].state == Completed && r[i].waitingTime >= 0
    ensures var r := FcfsFrom(s, clock);
      forall i :: 0 < i < |s| ==> r[i].completionTime - r[i].burstTime >= r[i - 1].completionTime
    ensures var r := FcfsFrom(s, clock);
      |s| > 0 ==> r[0].completionTime - r[0].burstTime >= clock
  {
    if s != [] {
      var p := RunToCompletion(s[0], Max(clock, s[0].arrivalTime));
      var rest := FcfsFrom(s[1..], p.completionTime);
      FcfsFromFacts(s[1..], p.completionTime);
      var r := FcfsFrom(s, clock);
      assert r == [p] + rest;
      forall i | 0 < i < |s|
        ensures Definition(r[i]) == Definition(s[i])
      {
        assert r[i] == rest[i - 1] && s[i] == s[1..][i - 1];
      }
    }
  }

  /** With no negative burst, the last process of an FCFS schedule
      completes no earlier than `clock` plus all the bursts. */
  lemma {:induction false} FcfsLastCompletion(s: seq<Process>, clock: int)
    requires |s| > 0 && forall i :: 0 <= i < |s| ==> s[i].burstTime >= 0
    ensures FcfsFrom(s, clock)[|s| - 1].completionTime >= clock + Sum(BurstTimes(s))
  {
    var p := RunToCompletion(s[0], Max(clock, s[0].arrivalTime));
    assert BurstTimes(s) == [s[0].burstTime] + BurstTimes(s[1..]);
    if |s| > 1 {
      FcfsLastCompletion(s[1..], p.completionTime);
      assert FcfsFrom(s, clock)[|s| - 1] == FcfsFrom(s[1..], p.completionTime)[|s| - 2];
    }
  }

  /** `fcfsScheduling` lists the input processes (by definition) once
      each, in arrival order, all completed and none with a negative
      waiting time; with no negative burst, completion times never
      decrease along the result. */
  lemma FcfsScheduleFacts(ps: seq<Process>)
    ensures var r := FcfsSchedule(ps);
      && multiset(Definitions(r)) == multiset(Definitions(ps))
      && (forall i, j :: 0 <= i < j < |r| ==> r[i].arrivalTime <= r[j].arrivalTime)
      && (forall i :: 0 <= i < |r| ==> r[i].state == Completed && r[i].waitingTime >= 0)
    ensures var r := FcfsSchedule(ps);
      (forall i :: 0 <= i < |ps| ==> ps[i].burstTime >= 0) ==>
        forall i :: 0 < i < |r| ==> r[i - 1].completionTime <= r[i].completionTime
  {
    var s := SortBy(ps, ArrivalKey);
    var r := FcfsFrom(s, 0);
    FcfsFromFacts(s, 0);
    SameDefinitionsPermutation(ps, s, r);
    ArrivalOrderKept(s, r);
    if forall i :: 0 <= i < |ps| ==> ps[i].burstTime >= 0 {
      NonNegativeBurstsKept(ps, s);
      CompletionsOrdered(s, r);
    }
  }

  /** A list matching a permutation of `ps` definition by definition has
      the definitions of `ps`. */
  lemma SameDefinitionsPermutation(ps: seq<Process>, s: seq<Process>, r: seq<Process>)
    requires multiset(s) == multiset(ps) && |r| == |s|
    requires forall i :: 0 <= i < |s| ==> Definition(r[i]) == Definition(s[i])
    ensures multiset(Definitions(r)) == multiset(Definitions(ps))
  {
    assert Definitions(r) == Definitions(s);
    DefinitionsPermutation(s, ps);
  }

  /** Records with the definitions of a list sorted by arrival are in
      arrival order. */
  lemma ArrivalOrderKept(s: seq<Process>, r: seq<Process>)
    requires Sorted(s, ArrivalKey) && |r| == |s|
    requires forall i :: 0 <= i < |s| ==> Definition(r[i]) == Definition(s[i])
    ensures forall i, j :: 0 <= i < j < |r| ==> r[i].arrivalTime <= r[j].arrivalTime
  {
    forall i, j | 0 <= i < j < |r| ensures r[i].arrivalTime <= r[j].arrivalTime {
      assert ArrivalKey(s[i]) <= ArrivalKey(s[j]);
      assert Definition(r[i]) == Definition(s[i]) && Definition(r[j]) == Definition(s[j]);
    }
  }

  lemma NonNegativeBurstsKept(ps: seq<Process>, s: seq<Process>)
    requires multiset(s) == multiset(ps)
    requires forall i :: 0 <= i < |ps| ==> ps[i].burstTime >= 0
    ensures forall i :: 0 <= i < |s| ==> s[i].burstTime >= 0
  {
    forall i | 0 <= i < |s| ensures s[i].burstTime >= 0 {
      assert s[i] in multiset(ps);
    }
  }

  /** Each run starting after the previous one completes, with no negative
      burst, completion times never decrease. */
  lemma CompletionsOrdered(s: seq<Process>, r: seq<Process>)
    requires |r| == |s| && forall i :: 0 <= i < |s| ==> s[i].burstTime >= 0
    requires forall i :: 0 <= i < |s| ==> Definition(r[i]) == Definition(s[i])
    requires forall i :: 0 < i < |s| ==> r[i].completionTime - r[i].burstTime >= r[i - 1].completionTime
    ensures forall i :: 0 < i < |r| ==> r[i - 1].completionTime <= r[i].completionTime
  {
    forall i | 0 < i < |r| ensures r[i - 1].completionTime <= r[i].completionTime {
      assert Definition(r[i]) == Definition(s[i]);
    }
  }

  /** Lists with the same processes have the same definitions. */
  lemma {:induction false} DefinitionsPermutation(a: seq<Process>, b: seq<Process>)
    requires multiset(a) == multiset(b)
    ensures multiset(Definitions(a)) == multiset(Definitions(b))
    decreases |a|
  {
    if a == [] {
      assert |b| == |multiset(b)| == 0;
    } else {
      assert a[0] in multiset(b);
      var k :| 0 <= k < |b| && b[k] == a[0];
      RemoveFirstMatch(a, b, k);
      DefinitionsPermutation(a[1..], RemoveAt(b, k));
      assert Definitions(a) == [Definition(a[0])] + Definitions(a[1..]);
      DefinitionsRemoveAt(b, k);
    }
  }



  /** One step of the FCFS `map`: the process at `i` runs from the later
      of the clock and its arrival, and the schedule still to come
      continues from its completion. */
  lemma FcfsStep(s: seq<Process>, i: nat, clock: int, done: seq<Process>, schedule: seq<Process>)
    requires i < |s| && done + FcfsFrom(s[i..], clock) == schedule
    ensures var p := RunToCompletion(s[i], Max(clock, s[i].arrivalTime));
      (done + [p]) + FcfsFrom(s[i + 1..], p.completionTime) == schedule
  {
    var p := RunToCompletion(s[i], Max(clock, s[i].arrivalTime));
    assert s[i..][0] == s[i] && s[i..][1..] == s[i + 1..];
    assert FcfsFrom(s[i..], clock) == [p] + FcfsFrom(s[i + 1..], p.completionTime);
  }

  /** `fcfsScheduling` itself, threading `currentTime` through the `map`. */
  method FcfsScheduling(processes: seq<Process>) returns (result: seq<Process>)
    ensures result == FcfsSchedule(processes)
  {
    var sorted := SortBy(processes, ArrivalKey);
    ghost var schedule := FcfsFrom(sorted, 0);
    var currentTime := 0;
    result := [];
    var i := 0;
    while i < |sorted|
      invariant 0 <= i <= |sorted|
      invariant result + FcfsFrom(sorted[i..], currentTime) == schedule
    {
      var p := sorted[i];
      // the start, completion, turnaround and waiting times of the record
      var done := RunToCompletion(p, Max(currentTime, p.arrivalTime));
      FcfsStep(sorted, i, currentTime, result, schedule);
      currentTime := done.completionTime;
      result := result + [done];
      i := i + 1;
    }
    assert sorted[|sorted|..] == [];
    assert result + [] == result;
  }

  // ---------------------------------------------------------------------
  // SJF

  function BurstKey(p: Process): int { p.burstTime }

  /** `remaining.filter(arrived).reduce(shorter)` located back in
      `remaining` by `indexOf`: the first process arrived by `clock` with
      the shortest burst, or none when nothing has arrived. */
  function ShortestArrived(remaining: seq<Process>, clock: int): (r: Option<nat>)
    ensures r.None? <==> forall i :: 0 <= i < |remaining| ==> remaining[i].arrivalTime > clock
    ensures r.Some? ==> r.value < |remaining| && remaining[r.value].arrivalTime <= clock
    ensures r.Some? ==> forall j :: 0 <= j < |remaining| && remaining[j].arrivalTime <= clock ==>
      remaining[r.value].burstTime <= remaining[j].burstTime
    ensures r.Some? ==> forall j :: 0 <= j < r.value && remaining[j].arrivalTime <= clock ==>
      remaining[j].burstTime > remaining[r.value].burstTime
  {
    if remaining == [] then None
    else
      var rest := ShortestArrived(remaining[1..], clock);
      if remaining[0].arrivalTime > clock then
        (if rest.None? then None else Some(rest.value + 1))
      else if rest.None? || remaining[0].burstTime <= remaining[rest.value + 1].burstTime then Some(0)
      else Some(rest.value + 1)
  }

  function Arrivals(s: seq<Process>): (r: seq<int>)
    ensures |r| == |s| && forall i :: 0 <= i < |s| ==> r[i] == s[i].arrivalTime
  {
    seq(|s|, i requires 0 <= i < |s| => s[i].arrivalTime)
  }


  /** When nothing has arrived, the clock jumps to the earliest arrival,
      after which something has. */
  lemma EarliestArrivalArrives(remaining: seq<Process>)
    requires |remaining| > 0
    ensures ShortestArrived(remaining, MinOf(Arrivals(remaining))).Some?
  {
    var a := Arrivals(remaining);
    var k :| 0 <= k < |a| && a[k] == MinOf(a);
    assert remaining[k].arrivalTime <= MinOf(a);
  }

  /** The `while` loop of `sjfScheduling` from `remaining` at `clock`. */
  function SjfFrom(remaining: seq<Process>, clock: int): (r: seq<Process>)
    decreases |remaining|, if ShortestArrived(remaining, clock).None? then 1 else 0
  {
    if remaining == [] then []
    else match ShortestArrived(remaining, clock)
      case None =>
        EarliestArrivalArrives(remaining);
        SjfFrom(remaining, MinOf(Arrivals(remaining)))
      case Some(k) =>
        var p := RunToCompletion(remaining[k], Max(clock, remaining[k].arrivalTime));
        [p] + SjfFrom(RemoveAt(remaining, k), p.completionTime)
  }

  /** `sjfScheduling`: from time 0. */
  function SjfSchedule(ps: seq<Process>): seq<Process>
  {
    SjfFrom(ps, 0)
  }

  /** An SJF schedule lists every input process exactly once (by
      definition), completed and with no negative waiting time. */
  lemma {:induction false} SjfFromFacts(remaining: seq<Process>, clock: int)
    ensures multiset(Definitions(SjfFrom(remaining, clock))) == multiset(Definitions(remaining))
    ensures var r := SjfFrom(remaining, clock);
      forall i :: 0 <= i < |r| ==> r[i].state == Completed && r[i].waitingTime >= 0
    decreases |remaining|, if ShortestArrived(remaining, clock).None? then 1 else 0
  {
    if remaining != [] {
      match ShortestArrived(remaining, clock)
      case None =>
        EarliestArrivalArrives(remaining);
        SjfFromFacts(remaining, MinOf(Arrivals(remaining)));
      case Some(k) =>
        var p := RunToCompletion(remaining[k], Max(clock, remaining[k].arrivalTime));
        SjfFromRun(remaining, clock, k);
        SjfFromFacts(RemoveAt(remaining, k), p.completionTime);
        PrependFinished(p, SjfFrom(RemoveAt(remaining, k), p.completionTime), remaining, k);
        PrependCompleted(p, SjfFrom(RemoveAt(remaining, k), p.completionTime));
    }
  }

  /** Putting the finished process `p` of `s[k]` in front of a schedule of
      the rest of `s` gives a schedule of all of `s`. */
  lemma PrependFinished(p: Process, r: seq<Process>, s: seq<Process>, k: nat)
    requires k < |s| && Definition(p) == Definition(s[k])
    requires multiset(Definitions(r)) == multiset(Definitions(RemoveAt(s, k)))
    ensures multiset(Definitions([p] + r)) == multiset(Definitions(s))
  {
    var d := Definitions(r);
    assert Definitions([p] + r) == [Definition(p)] + d;
    calc {
      multiset(Definitions([p] + r));
      multiset([Definition(p)] + d);
      multiset{Definition(s[k])} + multiset(d);
      { DefinitionsRemoveAt(s, k); }
      multiset(Definitions(s));
    }
  }

  /** Putting a completed process with no negative waiting time in front
      of processes that are all so keeps them all so. */
  lemma PrependCompleted(p: Process, r: seq<Process>)
    requires p.state == Completed && p.waitingTime >= 0
    requires forall i :: 0 <= i < |r| ==> r[i].state == Completed && r[i].waitingTime >= 0
    ensures forall i :: 0 <= i < |[p] + r| ==> ([p] + r)[i].state == Completed && ([p] + r)[i].waitingTime >= 0
  {
    forall i | 0 <= i < |[p] + r|
      ensures ([p] + r)[i].state == Completed && ([p] + r)[i].waitingTime >= 0
    {
      if i > 0 {
        assert ([p] + r)[i] == r[i - 1];
      }
    }
  }

  lemma DefinitionsRemoveAt(s: seq<Process>, k: nat)
    requires k < |s|
    ensures multiset(Definitions(RemoveAt(s, k))) + multiset{Definition(s[k])} == multiset(Definitions(s))
  {
    var d := Definitions(s);
    assert Definitions(RemoveAt(s, k)) == RemoveAt(d, k);
  }

  /** A step of the loop with nothing arrived: the clock jumps to the
      earliest arrival, after which something has, and the schedule still
      to come is unchanged. */
  lemma SjfIdleStep(result: seq<Process>, remaining: seq<Process>, clock: int, target: seq<Process>)
    requires remaining != [] && ShortestArrived(remaining, clock).None?
    requires result + SjfFrom(remaining, clock) == target
    ensures ShortestArrived(remaining, MinOf(Arrivals(remaining))).Some?
    ensures result + SjfFrom(remaining, MinOf(Arrivals(remaining))) == target
  {
    EarliestArrivalArrives(remaining);
  }

  /** A step of the loop that runs the shortest arrived process: it is the
      next entry of the schedule. */
  lemma SjfRunStep(result: seq<Process>, remaining: seq<Process>, clock: int, k: nat,
                   finished: Process, target: seq<Process>)
    requires ShortestArrived(remaining, clock) == Some(k)
    requires finished == RunToCompletion(remaining[k], Max(clock, remaining[k].arrivalTime))
    requires result + SjfFrom(remaining, clock) == target
    ensures (result + [finished]) + SjfFrom(RemoveAt(remaining, k), finished.completionTime) == target
  {
    var rest := SjfFrom(RemoveAt(remaining, k), finished.completionTime);
    assert SjfFrom(remaining, clock) == [finished] + rest;
    assert result + ([finished] + rest) == (result + [finished]) + rest;
  }

  /** Unfolding the schedule where the shortest arrived process runs. */
  lemma SjfFromRun(remaining: seq<Process>, clock: int, k: nat)
    requires ShortestArrived(remaining, clock) == Some(k)
    ensures var p := RunToCompletion(remaining[k], Max(clock, remaining[k].arrivalTime));
      SjfFrom(remaining, clock) == [p] + SjfFrom(RemoveAt(remaining, k), p.completionTime)
  {
  }

  /** `sjfScheduling` itself: the `while` loop over `remaining`. When
      nothing has arrived the source jumps the clock and `continue`s; the
      loop condition still holds then and the next pass finds an arrived
      process, so here the jump and that pass share one iteration. */
  method SjfScheduling(processes: seq<Process>) returns (result: seq<Process>)
    ensures result == SjfSchedule(processes)
  {
    result := [];
    var remaining := processes;
    var currentTime := 0;
    ghost var schedule := SjfFrom(processes, 0);
    while |remaining| > 0
      invariant result + SjfFrom(remaining, currentTime) == schedule
      decreases |remaining|
    {
      var k := ShortestArrived(remaining, currentTime);
      if k.None? {
        SjfIdleStep(result, remaining, currentTime, schedule);
        currentTime := MinOf(Arrivals(remaining));
        k := ShortestArrived(remaining, currentTime);
      }
      var shortest := remaining[k.value];
      // the start, completion, turnaround and waiting times of the record
      var finished := RunToCompletion(shortest, Max(currentTime, shortest.arrivalTime));
      SjfRunStep(result, remaining, currentTime, k.value, finished, schedule);
      result := result + [finished];
      currentTime := finished.completionTime;
      remaining := RemoveAt(remaining, k.value);
    }
    assert result + [] == result;
  }

  // ---------------------------------------------------------------------
  // Index-returning fit loops

  function IndexOrMinusOne(r: Option<nat>): int
  {
    if r.None? then -1 else r.value
  }

  /** `firstFitAllocation`: the index First-Fit selects, or -1. */
  method FirstFitAllocation(blocks: seq<MemoryBlock>, size: int) returns (index: int)
    ensures index == IndexOrMinusOne(FirstFitIndex(blocks, size))
  {
    var i := 0;
    while i < |blocks|
      invariant 0 <= i <= |blocks|
      invariant forall j :: 0 <= j < i ==> !Fits(blocks[j], size)
    {
      if !blocks[i].isAllocated && blocks[i].size >= size {
        return i;
      }
      i := i + 1;
    }
    return -1;
  }

  /** `x < bound`, where no bound stands for `Infinity`. */
  predicate Below(x: int, bound: Option<int>)
  {
    bound.None? || x < bound.value
  }

  /** `bestFitAllocation`: the index Best-Fit selects, or -1. */
  method BestFitAllocation(blocks: seq<MemoryBlock>, size: int) returns (bestIndex: int)
    ensures bestIndex == IndexOrMinusOne(BestFitIndex(blocks, size))
  {
    bestIndex := -1;
    var bestSize: Option<int> := None;
    var i := 0;
    while i < |blocks|
      invariant 0 <= i <= |blocks| && -1 <= bestIndex < i
      invariant bestIndex == -1 <==> bestSize.None?
      invariant bestIndex == -1 <==> forall j :: 0 <= j < i ==> !Fits(blocks[j], size)
      invariant bestIndex >= 0 ==> Fits(blocks[bestIndex], size) && bestSize == Some(blocks[bestIndex].size as int)
      invariant bestIndex >= 0 ==> forall j :: 0 <= j < i && Fits(blocks[j], size) ==> blocks[bestIndex].size <= blocks[j].size
      invariant bestIndex >= 0 ==> forall j :: 0 <= j < bestIndex && Fits(blocks[j], size) ==> blocks[j].size > blocks[bestIndex].size
    {
      if !blocks[i].isAllocated && blocks[i].size >= size && Below(blocks[i].size, bestSize) {
        bestIndex := i;
        bestSize := Some(blocks[i].size);
      }
      i := i + 1;
    }
  }

  /** `worstFitAllocation`: the index Worst-Fit selects, or -1. */
  method WorstFitAllocation(blocks: seq<MemoryBlock>, size: int) returns (worstIndex: int)
    ensures worstIndex == IndexOrMinusOne(WorstFitIndex(blocks, size))
  {
    worstIndex := -1;
    var worstSize: int := -1;
    var i := 0;
    while i < |blocks|
      invariant 0 <= i <= |blocks| && -1 <= worstIndex < i
      invariant worstIndex == -1 ==> worstSize == -1
      invariant worstIndex == -1 <==> forall j :: 0 <= j < i ==> !Fits(blocks[j], size)
      invariant worstIndex >= 0 ==> Fits(blocks[worstIndex], size) && worstSize == blocks[worstIndex].size
      invariant worstIndex >= 0 ==> forall j :: 0 <= j < i && Fits(blocks[j], size) ==> blocks[worstIndex].size >= blocks[j].size
      invariant worstIndex >= 0 ==> forall j :: 0 <= j < worstIndex && Fits(blocks[j], size) ==> blocks[j].size < blocks[worstIndex].size
    {
      if !blocks[i].isAllocated && blocks[i].size >= size && blocks[i].size > worstSize {
        worstIndex := i;
        worstSize := blocks[i].size;
      }
      i := i + 1;
    }
  }

  // ---------------------------------------------------------------------
  // The scenarios of the test suite

  /** The figures of the test processes: P1 to P4 arrive at 0, 1, 2 and
      3 with bursts 8, 4, 9 and 5. */
  predicate TestFigures(ps: seq<Process>)
  {
    && |ps| == 4
    && ps[0].name == "P1" && ps[0].arrivalTime == 0 && ps[0].burstTime == 8
    && ps[1].name == "P2" && ps[1].arrivalTime == 1 && ps[1].burstTime == 4
    && ps[2].name == "P3" && ps[2].arrivalTime == 2 && ps[2].burstTime == 9
    && ps[3].name == "P4" && ps[3].arrivalTime == 3 && ps[3].burstTime == 5
  }

  /** The test processes are those of the page's example data. */
  function TestProcesses(): (ps: seq<Process>)
    ensures TestFigures(ps)
  {
    ExampleProcesses()
  }

  /** One step of an FCFS schedule. */
  lemma FcfsFromStep(s: seq<Process>, clock: int, start: int, rest: seq<Process>)
    requires s != [] && start == Max(clock, s[0].arrivalTime)
    requires rest == FcfsFrom(s[1..], start + s[0].burstTime)
    ensures FcfsFrom(s, clock) == [RunToCompletion(s[0], start)] + rest
  {
  }

  /** The test processes are already in arrival order. */
  lemma TestProcessesByArrival(ps: seq<Process>)
    requires TestFigures(ps)
    ensures SortBy(ps, ArrivalKey) == ps && SortBy(ps[..2], ArrivalKey) == ps[..2]
  {
    ArrivingInTurn(ps);
    assert ps[..2][0] == ps[0] && ps[..2][1] == ps[1];
    ArrivingInTurn(ps[..2]);
  }

  /** Processes arriving at 0, 1, 2, ... in turn are in arrival order. */
  lemma ArrivingInTurn(s: seq<Process>)
    requires forall i :: 0 <= i < |s| ==> s[i].arrivalTime == i
    ensures SortBy(s, ArrivalKey) == s
  {
    assert Sorted(s, ArrivalKey);
    SortByIdentity(s, ArrivalKey);
  }

  lemma FcfsOfLastTwo(ps: seq<Process>)
    requires TestFigures(ps)
    ensures FcfsFrom(ps[2..], 12) == [RunToCompletion(ps[2], 12), RunToCompletion(ps[3], 21)]
  {
    assert ps[3..][1..] == [];
    FcfsFromStep(ps[3..], 21, 21, []);
    assert ps[2..][1..] == ps[3..];
    FcfsFromStep(ps[2..], 12, 12, [RunToCompletion(ps[3], 21)]);
  }

  /** FCFS over the test processes: each starts when the previous one
      completes. */
  lemma FcfsOfTestProcesses(ps: seq<Process>)
    requires TestFigures(ps)
    ensures FcfsSchedule(ps) == [RunToCompletion(ps[0], 0), RunToCompletion(ps[1], 8),
                                 RunToCompletion(ps[2], 12), RunToCompletion(ps[3], 21)]
  {
    TestProcessesByArrival(ps);
    FcfsOfLastTwo(ps);
    assert ps[1..][1..] == ps[2..];
    FcfsFromStep(ps[1..], 8, 8, [RunToCompletion(ps[2], 12), RunToCompletion(ps[3], 21)]);
    FcfsFromStep(ps, 0, 0, [RunToCompletion(ps[1], 8), RunToCompletion(ps[2], 12), RunToCompletion(ps[3], 21)]);
  }

  /** FCFS runs P1 over [0, 8), P2 over [8, 12), P3 over [12, 21) and P4
      over [21, 26): P1 completes at 8 with no wait and P2 at 12 after
      waiting 7, and the average waiting time, 35 / 4, lies in (0, 20). */
  lemma FcfsScenario(ps: seq<Process>)
    requires TestFigures(ps)
    ensures var r := FcfsSchedule(ps);
      && |r| == 4
      && r[0].name == "P1" && r[0].completionTime == 8 && r[0].waitingTime == 0
      && r[1].name == "P2" && r[1].completionTime == 12 && r[1].waitingTime == 7
      && r[2].name == "P3" && r[2].completionTime == 21 && r[2].waitingTime == 10
      && r[3].name == "P4" && r[3].completionTime == 26 && r[3].waitingTime == 18
      && 0.0 < Mean(Sum(WaitingTimes(r)), |r|) < 20.0
  {
    FcfsOfTestProcesses(ps);
    var r := FcfsSchedule(ps);
    var w := WaitingTimes(r);
    assert w == [0, 7, 10, 18];
    assert w[3..] == [18] && w[3..][1..] == [] && Sum(w[3..]) == 18;
    assert w[2..][1..] == w[3..] && Sum(w[2..]) == 28;
    assert w[1..][1..] == w[2..] && Sum(w[1..]) == 35;
    assert Sum(w) == 35;
    var m := Mean(35, 4);
    assert m * 4.0 == 35.0;
  }

  /** The last two SJF steps over the test processes: with P3 and P4
      left at time 12, P4 (burst 5) runs before P3 (burst 9). */
  lemma SjfOfLastTwo(ps: seq<Process>)
    requires TestFigures(ps)
    ensures SjfFrom([ps[2], ps[3]], 12) == [RunToCompletion(ps[3], 12), RunToCompletion(ps[2], 17)]
  {
    var ps2 := [ps[2], ps[3]];
    var f3 := RunToCompletion(ps[3], 12);
    var f4 := RunToCompletion(ps[2], 17);
    assert ps2[0].arrivalTime <= 12 && ps2[1].arrivalTime <= 12;
    assert ShortestArrived(ps2, 12) == Some(1);
    assert RemoveAt(ps2, 1) == [ps[2]];
    assert ShortestArrived([ps[2]], 17) == Some(0);
    assert RemoveAt([ps[2]], 0) == [];
    SjfFromRun([ps[2]], 17, 0);
    SjfFromRun(ps2, 12, 1);
  }

  /** At time 0 only P1 has arrived; at time 8 P2, P3 and P4 have, and
      P2 has the shortest burst. */
  lemma SjfFirstChoices(ps: seq<Process>)
    requires TestFigures(ps)
    ensures ShortestArrived(ps, 0) == Some(0)
    ensures ShortestArrived([ps[1], ps[2], ps[3]], 8) == Some(0)
  {
    var ps1 := [ps[1], ps[2], ps[3]];
    assert ps1[0].arrivalTime <= 8;
    assert ps[0].arrivalTime <= 0;
  }

  /** The first two SJF steps over the test processes: P1 runs alone at
      time 0, then P2 (burst 4) is the shortest arrived at time 8. */
  lemma SjfOfTestProcesses(ps: seq<Process>)
    requires TestFigures(ps)
    ensures SjfSchedule(ps) == [RunToCompletion(ps[0], 0), RunToCompletion(ps[1], 8),
                                RunToCompletion(ps[3], 12), RunToCompletion(ps[2], 17)]
  {
    var rest := [RunToCompletion(ps[3], 12), RunToCompletion(ps[2], 17)];
    SjfOfLastTwo(ps);
    var f1 := RunToCompletion(ps[0], 0);
    var f2 := RunToCompletion(ps[1], 8);
    var ps1 := [ps[1], ps[2], ps[3]];
    SjfFirstChoices(ps);
    DropFirstOfThree(ps[1], ps[2], ps[3]);
    SjfFromRun(ps1, 8, 0);
    assert f2.completionTime == 12;
    assert SjfFrom(ps1, 8) == [f2] + rest;
    DropFirstOfFour(ps);
    SjfFromRun(ps, 0, 0);
    assert f1.completionTime == 8;
    ConsTwo(f1, f2, rest);
  }

  lemma DropFirstOfThree<T>(a: T, b: T, c: T)
    ensures RemoveAt([a, b, c], 0) == [b, c]
  {
  }

  lemma DropFirstOfFour<T>(s: seq<T>)
    requires |s| == 4
    ensures RemoveAt(s, 0) == [s[1], s[2], s[3]]
  {
  }

  lemma ConsTwo<T>(a: T, b: T, rest: seq<T>)
    requires |rest| == 2
    ensures [a] + ([b] + rest) == [a, b, rest[0], rest[1]]
  {
  }

  /** SJF runs P1 first (alone at time 0), then the shortest of the
      others at each completion: P2, P4, P3. */
  lemma SjfScenario(ps: seq<Process>)
    requires TestFigures(ps)
    ensures var r := SjfSchedule(ps);
      |r| == 4 && r[0].name == "P1" && r[1].name == "P2" && r[2].name == "P4" && r[3].name == "P3"
  {
    SjfOfTestProcesses(ps);
  }

  /** The two-process schedule of the metric tests. */
  lemma FcfsOfFirstTwo(ps: seq<Process>)
    requires TestFigures(ps)
    ensures FcfsSchedule(ps[..2]) == [RunToCompletion(ps[0], 0), RunToCompletion(ps[1], 8)]
  {
    TestProcessesByArrival(ps);
    var s := ps[..2];
    assert s[1..][1..] == [];
    FcfsFromStep(s[1..], 8, 8, []);
    FcfsFromStep(s, 0, 0, [RunToCompletion(ps[1], 8)]);
  }

  /** The two-process schedule of the metric tests: throughput 2 / 12
      lies in (0, 1] and CPU utilization is exactly 100. */
  lemma MetricsScenario(ps: seq<Process>)
    requires TestFigures(ps)
    ensures var r := FcfsSchedule(ps[..2]);
      var latest := MaxOf(CompletionTimes(r));
      latest == 12 && 0.0 < Ratio(|r|, latest) <= 1.0 && Percent(Sum(BurstTimes(r)), latest) == 100.0
  {
    FcfsOfFirstTwo(ps);
    var r := FcfsSchedule(ps[..2]);
    assert CompletionTimes(r) == [8, 12];
    assert BurstTimes(r) == [8, 4];
    assert MaxOf([8, 12]) == 12;
    assert Sum([8, 4]) == 12;
    PercentBounds(12, 12);
    var t := Ratio(2, 12);
    assert t * 12.0 == 2.0;
  }

  /** For any FCFS schedule whose bursts are at least 1, the number of
      processes is at most the latest completion time and the bursts add
      up to at most it: throughput at most 1 and CPU utilization at most
      100, as the metric tests check. */
  lemma FcfsMetricsBounded(ps: seq<Process>)
    requires |ps| > 0 && forall i :: 0 <= i < |ps| ==> ps[i].burstTime >= 1
    ensures var r := FcfsSchedule(ps);
      var latest := MaxOf(CompletionTimes(r));
      latest >= Sum(BurstTimes(r)) >= |r| > 0 && Ratio(|r|, latest) <= 1.0 && Percent(Sum(BurstTimes(r)), latest) <= 100.0
  {
    var s := SortBy(ps, ArrivalKey);
    SortedBurstsPositive(ps, s);
    FcfsLastCompletionBound(s);
    var r := FcfsSchedule(ps);
    RatesBounded(|r|, Sum(BurstTimes(r)), MaxOf(CompletionTimes(r)));
  }

  /** Sorting keeps every burst of at least 1. */
  lemma SortedBurstsPositive(ps: seq<Process>, s: seq<Process>)
    requires forall i :: 0 <= i < |ps| ==> ps[i].burstTime >= 1
    requires multiset(s) == multiset(ps)
    ensures forall i :: 0 <= i < |s| ==> s[i].burstTime >= 1
  {
    forall i | 0 <= i < |s| ensures s[i].burstTime >= 1 {
      assert s[i] in multiset(ps);
    }
  }

  /** The latest completion of an FCFS run over processes with bursts of
      at least 1 is at least the sum of the bursts, which is at least
      their number. */
  lemma FcfsLastCompletionBound(s: seq<Process>)
    requires |s| > 0 && forall i :: 0 <= i < |s| ==> s[i].burstTime >= 1
    ensures var r := FcfsFrom(s, 0);
      MaxOf(CompletionTimes(r)) >= Sum(BurstTimes(r)) >= |r|
  {
    var r := FcfsFrom(s, 0);
    FcfsFromFacts(s, 0);
    FcfsLastCompletion(s, 0);
    assert BurstTimes(r) == BurstTimes(s);
    BurstsAtLeastCount(s);
    assert CompletionTimes(r)[|r| - 1] == r[|r| - 1].completionTime;
  }

  lemma RatesBounded(n: int, total: int, latest: int)
    requires latest >= total >= n > 0
    ensures Ratio(n, latest) <= 1.0 && Percent(total, latest) <= 100.0
  {
    PercentBounds(total, latest);
    var t := Ratio(n, latest);
    assert t * latest as real == n as real;
  }

  lemma {:induction false} BurstsAtLeastCount(s: seq<Process>)
    requires forall i :: 0 <= i < |s| ==> s[i].burstTime >= 1
    ensures Sum(BurstTimes(s)) >= |s|
  {
    if s != [] {
      assert BurstTimes(s) == [s[0].burstTime] + BurstTimes(s[1..]);
      BurstsAtLeastCount(s[1..]);
    }
  }

  /** The memory blocks of the fit tests: free blocks of 100, 500, 200 and
      300 KB one after the other. */
  function TestBlocks(): seq<MemoryBlock>
  {
    [ MemoryBlock(1, 0, 100, None, None, false),
      MemoryBlock(2, 100, 500, None, None, false),
      MemoryBlock(3, 600, 200, None, None, false),
      MemoryBlock(4, 800, 300, None, None, false) ]
  }

  /** For 150 KB First-Fit takes index 1, Best-Fit index 2 and Worst-Fit
      index 1; for 1000 KB nothing fits. */
  lemma FitScenarios()
    ensures IndexOrMinusOne(FirstFitIndex(TestBlocks(), 150)) == 1
    ensures IndexOrMinusOne(BestFitIndex(TestBlocks(), 150)) == 2
    ensures IndexOrMinusOne(WorstFitIndex(TestBlocks(), 150)) == 1
    ensures IndexOrMinusOne(FirstFitIndex(TestBlocks(), 1000)) == -1
  {
    FirstFitScenario();
    BestFitScenario();
    WorstFitScenario();
  }

  lemma FirstFitScenario()
    ensures FirstFitIndex(TestBlocks(), 150) == Some(1)
    ensures FirstFitIndex(TestBlocks(), 1000).None?
  {
    var b := TestBlocks();
    assert !Fits(b[0], 150) && Fits(b[1], 150);
    assert forall j :: 0 <= j < 4 ==> !Fits(b[j], 1000);
  }

  lemma BestFitScenario()
    ensures BestFitIndex(TestBlocks(), 150) == Some(2)
  {
    var b := TestBlocks();
    assert !Fits(b[0], 150) && Fits(b[1], 150) && Fits(b[2], 150) && Fits(b[3], 150);
  }

  lemma WorstFitScenario()
    ensures WorstFitIndex(TestBlocks(), 150) == Some(1)
  {
    var b := TestBlocks();
    assert !Fits(b[0], 150) && Fits(b[1], 150) && Fits(b[2], 150) && Fits(b[3], 150);
  }
}
