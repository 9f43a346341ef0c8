/** The statistics card of the scheduling page: average waiting and
    turnaround time, throughput and CPU utilization, all computed over
    the completed processes only. Ratios are exact; the card's rounding
    to two decimals is display only. */
module ProcessStatistics {
  import opened Common
  import opened ProcessScheduling
  import opened ProcessQueue

  function WaitingTimes(ps: seq<Process>): (r: seq<int>)
    ensures |r| == |ps| && forall i :: 0 <= i < |ps| ==> r[i] == ps[i].waitingTime
  {
    seq(|ps|, i requires 0 <= i < |ps| => ps[i].waitingTime)
  }

  function TurnaroundTimes(ps: seq<Process>): (r: seq<int>)
    ensures |r| == |ps| && forall i :: 0 <= i < |ps| ==> r[i] == ps[i].turnaroundTime
  {
    seq(|ps|, i requires 0 <= i < |ps| => ps[i].turnaroundTime)
  }

  function BurstTimes(ps: seq<Process>): (r: seq<int>)
    ensures |r| == |ps| && forall i :: 0 <= i < |ps| ==> r[i] == ps[i].burstTime
  {
    seq(|ps|, i requires 0 <= i < |ps| => ps[i].burstTime)
  }

  function CompletionTimes(ps: seq<Process>): (r: seq<int>)
    ensures |r| == |ps| && forall i :: 0 <= i < |ps| ==> r[i] == ps[i].completionTime
  {
    seq(|ps|, i requires 0 <= i < |ps| => ps[i].completionTime)
  }

  datatype ProcessStats = ProcessStats(
    avgWaitingTime: real,
    avgTurnaroundTime: real,
    throughput: real,
    cpuUtilization: real)

  /** `calculateAverages`: all zero when nothing has completed; otherwise
      the averages are the means over the completed processes, the
      average waiting time lies between the least and the greatest
      waiting time among them, and throughput and CPU utilization are
      the completed count and the completed bursts against the latest
      completion time, or 0 when that time is not positive. */
  function CalculateAverages(ps: seq<Process>): (r: ProcessStats)
    ensures var c := GetCompletedProcesses(ps);
      |c| == 0 ==> r == ProcessStats(0.0, 0.0, 0.0, 0.0)
    ensures var c := GetCompletedProcesses(ps);
      |c| > 0 ==>
        && r.avgWaitingTime == Mean(Sum(WaitingTimes(c)), |c|)
        && r.avgTurnaroundTime == Mean(Sum(TurnaroundTimes(c)), |c|)
        && (forall i :: 0 <= i < |ps| && ps[i].state == Completed ==>
              MinOf(WaitingTimes(c)) <= ps[i].waitingTime <= MaxOf(WaitingTimes(c)))
        && MinOf(WaitingTimes(c)) as real <= r.avgWaitingTime <= MaxOf(WaitingTimes(c)) as real
    ensures var c := GetCompletedProcesses(ps);
      |c| > 0 ==>
        var latest := MaxOf(CompletionTimes(c));
        && (latest > 0 ==> r.throughput == Ratio(|c|, latest) && r.cpuUtilization == Percent(Sum(BurstTimes(c)), latest))
        && (latest <= 0 ==> r.throughput == 0.0 && r.cpuUtilization == 0.0)
  {
    var c := GetCompletedProcesses(ps);
    if |c| == 0 then
      ProcessStats(0.0, 0.0, 0.0, 0.0)
    else
      var latest := MaxOf(CompletionTimes(c));
      MeanBetweenMinAndMax(WaitingTimes(c));
      CompletedWaitingTimesBounded(ps);
      ProcessStats(
        Mean(Sum(WaitingTimes(c)), |c|),
        Mean(Sum(TurnaroundTimes(c)), |c|),
        if latest > 0 then Ratio(|c|, latest) else 0.0,
        if latest > 0 then Percent(Sum(BurstTimes(c)), latest) else 0.0)
  }

  /** Every completed process's waiting time lies between the least and
      the greatest waiting time among the completed processes. */
  lemma CompletedWaitingTimesBounded(ps: seq<Process>)
    requires |GetCompletedProcesses(ps)| > 0
    ensures var w := WaitingTimes(GetCompletedProcesses(ps));
      forall i :: 0 <= i < |ps| && ps[i].state == Completed ==> MinOf(w) <= ps[i].waitingTime <= MaxOf(w)
  {
    var c := GetCompletedProcesses(ps);
    var w := WaitingTimes(c);
    forall i | 0 <= i < |ps| && ps[i].state == Completed
      ensures MinOf(w) <= ps[i].waitingTime <= MaxOf(w)
    {
      assert ps[i] in c;
      var j :| 0 <= j < |c| && c[j] == ps[i];
      assert w[j] == ps[i].waitingTime;
    }
  }

  /** Only completed processes count: the figures of a list are those of
      its completed processes alone. */
  lemma OnlyCompletedCount(ps: seq<Process>)
    ensures CalculateAverages(ps) == CalculateAverages(GetCompletedProcesses(ps))
  {
    FilterIdempotent(ps, IsCompleted);
  }

  /** Adding a process that has not completed changes no figure. */
  lemma UnfinishedProcessChangesNothing(ps: seq<Process>, p: Process)
    requires p.state != Completed
    ensures CalculateAverages(ps + [p]) == CalculateAverages(ps)
  {
    FilterAppend(ps, [p], IsCompleted);
    assert Filter([p], IsCompleted) == [];
    assert Filter(ps, IsCompleted) + [] == Filter(ps, IsCompleted);
  }

  /** When every process's counters are sound, the average waiting time
      is not negative, the average turnaround is at least the average
      waiting time, and throughput and CPU utilization are not negative.
      The corrected tick keeps the counters sound from any list of
      unstarted processes on. */
  lemma SoundAverages(ps: seq<Process>, clock: int)
    requires AllSound(ps, clock, 0)
    ensures var r := CalculateAverages(ps);
      0.0 <= r.avgWaitingTime <= r.avgTurnaroundTime && r.throughput >= 0.0 && r.cpuUtilization >= 0.0
  {
    var c := GetCompletedProcesses(ps);
    if |c| > 0 {
      var w, t, b := WaitingTimes(c), TurnaroundTimes(c), BurstTimes(c);
      forall j | 0 <= j < |c|
        ensures 0 <= w[j] <= t[j] && b[j] >= 0
      {
        assert c[j] in ps;
        var i :| 0 <= i < |ps| && ps[i] == c[j];
        assert ProcessSound(ps[i], clock, 0);
      }
      SumNonNegative(w);
      SumNonNegative(b);
      SumMonotone(w, t);
      MeanMonotone(Sum(w), Sum(t), |c|);
      var latest := MaxOf(CompletionTimes(c));
      if latest > 0 {
        PercentBounds(Sum(b), latest);
        assert Ratio(Sum(b), latest) >= 0.0;
      }
    }
  }

  /** As written, the tick of the negative-waiting scenario leaves an
      average waiting time of -1 on the card. */
  lemma NegativeAverageAsWritten()
    ensures CalculateAverages(SimulateScheduling([NewProcess(1, "P", 1, 1, 1)], FCFS, 0, 0, InitialTimeQuantum).processes).avgWaitingTime == -1.0
  {
    NegativeWaitingAsWritten();
    var ps := SimulateScheduling([NewProcess(1, "P", 1, 1, 1)], FCFS, 0, 0, InitialTimeQuantum).processes;
    TickKeepsDefinitions([NewProcess(1, "P", 1, 1, 1)], FCFS, 0, 0, InitialTimeQuantum, 1);
    assert |ps| == 1;
    assert GetCompletedProcesses(ps) == [ps[0]];
    assert Sum(WaitingTimes([ps[0]])) == -1;
  }
}
