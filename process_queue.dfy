/** One tick of the scheduling simulation and the choice of the next
    process for each policy (First-Come-First-Served, Shortest Job First
    on remaining time, Priority with smaller numbers first, and Round
    Robin with a time quantum), plus the queue views the page shows. */
module ProcessQueue {
  import opened Common
  import opened Sorting
  import opened ProcessScheduling

  // ---------------------------------------------------------------------
  // Choosing the next process

  /** A process can be scheduled once it has arrived by `admitBy` and has
      not completed. */
  predicate Available(p: Process, admitBy: int)
  {
    p.arrivalTime <= admitBy && p.state != Completed
  }

  function AvailableProcesses(ps: seq<Process>, admitBy: int): (r: seq<Process>)
    ensures |r| <= |ps|
    ensures forall i :: 0 <= i < |r| ==> r[i] in ps && Available(r[i], admitBy)
    ensures forall i :: 0 <= i < |ps| && Available(ps[i], admitBy) ==> ps[i] in r
  {
    Filter(ps, (p: Process) => Available(p, admitBy))
  }

  predicate HasWork(p: Process) { p.remainingTime > 0 }
  predicate WaitingWithWork(p: Process) { p.remainingTime > 0 && p.state != Running }

  function ArrivalKey(p: Process): int { p.arrivalTime }
  function RemainingKey(p: Process): int { p.remainingTime }
  function PriorityKey(p: Process): int { p.priority }

  /** `filter(p => p.remainingTime > 0).sort(by key)[0] || null`: the first
      process with work left whose key is smallest. */
  function SelectByKey(available: seq<Process>, key: Process -> int): (r: Option<Process>)
    ensures r.None? <==> forall i :: 0 <= i < |available| ==> !HasWork(available[i])
    ensures r.Some? ==>
      exists i :: (0 <= i < |available| && r.value == available[i] && HasWork(available[i]) &&
        (forall j :: 0 <= j < |available| && HasWork(available[j]) ==> key(available[i]) <= key(available[j])) &&
        (forall j :: 0 <= j < i && HasWork(available[j]) ==> key(available[j]) > key(available[i])))
  {
    var candidates := Filter(available, HasWork);
    SortFilterHead(available, key, HasWork);
    if |candidates| == 0 then None
    else
      var i := FirstMinIndex(available, key, HasWork).value;
      assert SortBy(candidates, key)[0] == available[i];
      Some(SortBy(candidates, key)[0])
  }

  /** `find(p => p.state === 'running')`: the first running process. */
  function FindRunning(available: seq<Process>): (r: Option<Process>)
    ensures r.None? <==> forall i :: 0 <= i < |available| ==> available[i].state != Running
    ensures r.Some? ==> r.value in available && r.value.state == Running
    ensures r.Some? ==> exists i :: (0 <= i < |available| && available[i] == r.value &&
      forall j :: 0 <= j < i ==> available[j].state != Running)
  {
    if available == [] then None
    else if available[0].state == Running then Some(available[0])
    else
      var rest := FindRunning(available[1..]);
      assert rest.Some? ==> exists i :: (0 <= i < |available| && available[i] == rest.value &&
        forall j :: 0 <= j < i ==> available[j].state != Running)
      by {
        if rest.Some? {
          var k :| 0 <= k < |available[1..]| && available[1..][k] == rest.value &&
            forall j :: 0 <= j < k ==> available[1..][j].state != Running;
          assert available[k + 1] == rest.value;
          forall j | 0 <= j < k + 1 ensures available[j].state != Running {
            if j > 0 { assert available[j] == available[1..][j - 1]; }
          }
        }
      }
      rest
  }

  /** Round Robin: the running process keeps the processor while its time
      slice lasts and it has work; otherwise the earliest-arrived process
      that has work and is not running is chosen. */
  function RoundRobinSelect(available: seq<Process>, timeSlice: int, timeQuantum: int): (r: Option<Process>)
    ensures r.Some? ==> r.value in available && HasWork(r.value)
    ensures var running := FindRunning(available);
      running.Some? && timeSlice < timeQuantum && HasWork(running.value) ==> r == running
    ensures var running := FindRunning(available);
      !(running.Some? && timeSlice < timeQuantum && HasWork(running.value)) ==>
        && (r.None? <==> forall i :: 0 <= i < |available| ==> !WaitingWithWork(available[i]))
        && (r.Some? ==>
              (r.value.state != Running &&
               forall j :: 0 <= j < |available| && WaitingWithWork(available[j]) ==>
                 r.value.arrivalTime <= available[j].arrivalTime))
        && (r.Some? ==>
              exists i :: 0 <= i < |available| && r.value == available[i] && WaitingWithWork(available[i]) &&
                forall j :: 0 <= j < i && WaitingWithWork(available[j]) ==>
                  available[j].arrivalTime > available[i].arrivalTime)
  {
    var running := FindRunning(available);
    if running.Some? && timeSlice < timeQuantum && running.value.remainingTime > 0 then running
    else
      var waiting := Filter(available, WaitingWithWork);
      SortFilterHead(available, ArrivalKey, WaitingWithWork);
      if |waiting| > 0 then
        var i := FirstMinIndex(available, ArrivalKey, WaitingWithWork).value;
        assert SortBy(waiting, ArrivalKey)[0] == available[i];
        Some(SortBy(waiting, ArrivalKey)[0])
      else None
  }

  /** `selectNextProcess`: whatever is chosen has work left and is one of
      the available processes; outside Round Robin nothing is chosen only
      when no available process has work. */
  function SelectNextProcess(available: seq<Process>, algorithm: SchedulingAlgorithm,
                             timeSlice: int, timeQuantum: int): (r: Option<Process>)
    ensures r.Some? ==> r.value in available && HasWork(r.value)
    ensures algorithm != RR ==> (r.None? <==> forall i :: 0 <= i < |available| ==> !HasWork(available[i]))
    ensures r.None? ==> forall i :: 0 <= i < |available| ==> !WaitingWithWork(available[i])
    ensures algorithm == FCFS ==> r == SelectByKey(available, ArrivalKey)
    ensures algorithm == SJF ==> r == SelectByKey(available, RemainingKey)
    ensures algorithm == Priority ==> r == SelectByKey(available, PriorityKey)
    ensures algorithm == RR ==> r == RoundRobinSelect(available, timeSlice, timeQuantum)
  {
    if |available| == 0 then None
    else
      match algorithm
      case FCFS => SelectByKey(available, ArrivalKey)
      case SJF => SelectByKey(available, RemainingKey)
      case Priority => SelectByKey(available, PriorityKey)
      case RR => RoundRobinSelect(available, timeSlice, timeQuantum)
  }

  // ---------------------------------------------------------------------
  // One tick

  /** The selected process runs one time unit: it completes (with its
      statistics computed) when no time remains, and under Round Robin it
      goes back to waiting when its slice reaches the quantum. The second
      component is the new slice counter. */
  function RunSelected(p: Process, newTime: int, algorithm: SchedulingAlgorithm,
                       timeSlice: int, timeQuantum: int): (Process, int)
  {
    var ran := p.(state := Running, remainingTime := Max(0, p.remainingTime - 1));
    if ran.remainingTime == 0 then
      (ran.(state := Completed, completionTime := newTime, turnaroundTime := newTime - p.arrivalTime,
            waitingTime := newTime - p.arrivalTime - p.burstTime), 0)
    else if algorithm == RR then
      if timeSlice + 1 >= timeQuantum then (ran.(state := Waiting), 0) else (ran, timeSlice + 1)
    else (ran, timeSlice)
  }

  /** The body of the `forEach` that runs the process with id `nextId`
      and sends every other running process back to waiting. */
  function DispatchOne(p: Process, nextId: int, newTime: int, algorithm: SchedulingAlgorithm,
                       timeSlice: int, timeQuantum: int): (Process, int)
  {
    if p.id == nextId then RunSelected(p, newTime, algorithm, timeSlice, timeQuantum)
    else if p.state == Running then (p.(state := Waiting), timeSlice)
    else (p, timeSlice)
  }

  /** That `forEach` over the first `n` processes, threading the slice
      counter from one process to the next. */
  function DispatchUpTo(ps: seq<Process>, n: nat, nextId: int, newTime: int, algorithm: SchedulingAlgorithm,
                        timeSlice: int, timeQuantum: int): (r: (seq<Process>, int))
    requires n <= |ps|
    ensures |r.0| == n
  {
    if n == 0 then ([], timeSlice)
    else
      var prev := DispatchUpTo(ps, n - 1, nextId, newTime, algorithm, timeSlice, timeQuantum);
      var step := DispatchOne(ps[n - 1], nextId, newTime, algorithm, prev.1, timeQuantum);
      (prev.0 + [step.0], step.1)
  }

  /** The `forEach` that adds a unit of waiting time. */
  function AccrueOne(p: Process, admitBy: int): Process
  {
    if p.arrivalTime <= admitBy && p.state == Waiting && p.remainingTime > 0
    then p.(waitingTime := p.waitingTime + 1)
    else p
  }

  function AccrueWaiting(ps: seq<Process>, admitBy: int): (r: seq<Process>)
    ensures |r| == |ps| && forall i :: 0 <= i < |ps| ==> r[i] == AccrueOne(ps[i], admitBy)
  {
    seq(|ps|, i requires 0 <= i < |ps| => AccrueOne(ps[i], admitBy))
  }

  datatype TickResult = TickResult(processes: seq<Process>, currentTime: int, timeSlice: int)

  /** The process chosen in a tick that admits processes arrived by `admitBy`. */
  function SelectedProcess(ps: seq<Process>, algorithm: SchedulingAlgorithm, timeSlice: int,
                           timeQuantum: int, admitBy: int): Option<Process>
  {
    SelectNextProcess(AvailableProcesses(ps, admitBy), algorithm, timeSlice, timeQuantum)
  }

  /** `simulateScheduling` with the arrival cut-off as a parameter: the
      clock advances by one; when some process is available and one is
      selected, it runs one unit, every other running process waits, and
      each arrived waiting process with work gains a unit of waiting. */
  function SimulateSchedulingAt(ps: seq<Process>, algorithm: SchedulingAlgorithm, currentTime: int,
                                timeSlice: int, timeQuantum: int, admitBy: int): TickResult
  {
    var newTime := currentTime + 1;
    var available := AvailableProcesses(ps, admitBy);
    if |available| == 0 then TickResult(ps, newTime, timeSlice)
    else
      match SelectNextProcess(available, algorithm, timeSlice, timeQuantum)
      case None => TickResult(ps, newTime, timeSlice)
      case Some(next) =>
        var dispatched := DispatchUpTo(ps, |ps|, next.id, newTime, algorithm, timeSlice, timeQuantum);
        TickResult(AccrueWaiting(dispatched.0, admitBy), newTime, dispatched.1)
  }

  /** The tick as the component writes it: processes that arrive at the
      new time already take part in it. */
  function SimulateScheduling(ps: seq<Process>, algorithm: SchedulingAlgorithm, currentTime: int,
                              timeSlice: int, timeQuantum: int): TickResult
  {
    SimulateSchedulingAt(ps, algorithm, currentTime, timeSlice, timeQuantum, currentTime + 1)
  }

  /** The tick with the arrival cut-off at the start of the time unit it
      simulates, as the reference schedulers of the test suite use. */
  function SimulateSchedulingCorrected(ps: seq<Process>, algorithm: SchedulingAlgorithm, currentTime: int,
                                       timeSlice: int, timeQuantum: int): TickResult
  {
    SimulateSchedulingAt(ps, algorithm, currentTime, timeSlice, timeQuantum, currentTime)
  }

  /** The tick where nothing is dispatched: only the clock moves. */
  lemma TickIdles(ps: seq<Process>, algorithm: SchedulingAlgorithm, currentTime: int,
                  timeSlice: int, timeQuantum: int, admitBy: int)
    requires |AvailableProcesses(ps, admitBy)| == 0 ||
             SelectNextProcess(AvailableProcesses(ps, admitBy), algorithm, timeSlice, timeQuantum).None?
    ensures SimulateSchedulingAt(ps, algorithm, currentTime, timeSlice, timeQuantum, admitBy) ==
            TickResult(ps, currentTime + 1, timeSlice)
  {
  }

  /** The tick where `next` is dispatched. */
  lemma TickDispatches(ps: seq<Process>, algorithm: SchedulingAlgorithm, currentTime: int,
                       timeSlice: int, timeQuantum: int, admitBy: int, next: Process)
    requires |AvailableProcesses(ps, admitBy)| > 0
    requires SelectNextProcess(AvailableProcesses(ps, admitBy), algorithm, timeSlice, timeQuantum) == Some(next)
    ensures var d := DispatchUpTo(ps, |ps|, next.id, currentTime + 1, algorithm, timeSlice, timeQuantum);
      SimulateSchedulingAt(ps, algorithm, currentTime, timeSlice, timeQuantum, admitBy) ==
      TickResult(AccrueWaiting(d.0, admitBy), currentTime + 1, d.1)
  {
  }

  // ---------------------------------------------------------------------
  // Queue views

  /** In the ready queue: arrived by `currentTime`, waiting, with work. */
  predicate Ready(p: Process, currentTime: int)
  {
    p.arrivalTime <= currentTime && p.state == Waiting && p.remainingTime > 0
  }

  /** `getReadyQueue`. */
  function GetReadyQueue(ps: seq<Process>, currentTime: int): (r: seq<Process>)
    ensures forall i :: 0 <= i < |r| ==> r[i] in ps && Ready(r[i], currentTime)
    ensures forall i :: 0 <= i < |ps| && Ready(ps[i], currentTime) ==> ps[i] in r
  {
    Filter(ps, (p: Process) => Ready(p, currentTime))
  }

  /** `getRunningProcess`: the first running process. */
  function GetRunningProcess(ps: seq<Process>): (r: Option<Process>)
    ensures r.None? <==> forall i :: 0 <= i < |ps| ==> ps[i].state != Running
    ensures r.Some? ==> r.value in ps && r.value.state == Running
    ensures r.Some? ==> exists i :: (0 <= i < |ps| && ps[i] == r.value &&
      forall j :: 0 <= j < i ==> ps[j].state != Running)
  {
    FindRunning(ps)
  }

  predicate IsCompleted(p: Process) { p.state == Completed }

  /** `getCompletedProcesses`. */
  function GetCompletedProcesses(ps: seq<Process>): (r: seq<Process>)
    ensures forall i :: 0 <= i < |r| ==> r[i] in ps && r[i].state == Completed
    ensures forall i :: 0 <= i < |ps| && ps[i].state == Completed ==> ps[i] in r
  {
    Filter(ps, IsCompleted)
  }

  // ---------------------------------------------------------------------
  // What a tick does, process by process

  /** `q` is what the dispatch loop makes of `p`, whatever the slice
      counter was: its definition is kept; a process other than the
      selected one only stops running; the selected one loses one unit of
      remaining time and, at zero, completes with its statistics. */
  predicate DispatchedFrom(p: Process, q: Process, nextId: int, newTime: int)
  {
    && Definition(q) == Definition(p)
    && (p.id != nextId ==> q == if p.state == Running then p.(state := Waiting) else p)
    && (p.id == nextId ==>
          && q.remainingTime == Max(0, p.remainingTime - 1)
          && (q.remainingTime == 0 ==>
                q.state == Completed && q.completionTime == newTime &&
                q.turnaroundTime == newTime - p.arrivalTime &&
                q.waitingTime == q.turnaroundTime - p.burstTime)
          && (q.remainingTime != 0 ==>
                q.state != Completed && q.waitingTime == p.waitingTime &&
                q.turnaroundTime == p.turnaroundTime && q.completionTime == p.completionTime))
  }

  lemma DispatchOneFrom(p: Process, nextId: int, newTime: int, algorithm: SchedulingAlgorithm,
                        timeSlice: int, timeQuantum: int)
    ensures DispatchedFrom(p, DispatchOne(p, nextId, newTime, algorithm, timeSlice, timeQuantum).0, nextId, newTime)
  {
  }

  lemma {:induction false} DispatchUpToFrom(ps: seq<Process>, n: nat, nextId: int, newTime: int,
                                            algorithm: SchedulingAlgorithm, timeSlice: int, timeQuantum: int)
    requires n <= |ps|
    ensures var d := DispatchUpTo(ps, n, nextId, newTime, algorithm, timeSlice, timeQuantum).0;
      forall i :: 0 <= i < n ==> DispatchedFrom(ps[i], d[i], nextId, newTime)
  {
    if n > 0 {
      var prev := DispatchUpTo(ps, n - 1, nextId, newTime, algorithm, timeSlice, timeQuantum);
      DispatchUpToFrom(ps, n - 1, nextId, newTime, algorithm, timeSlice, timeQuantum);
      DispatchOneFrom(ps[n - 1], nextId, newTime, algorithm, prev.1, timeQuantum);
    }
  }

  /** The processes after the dispatch loop of a tick that selected
      `next`. */
  function Dispatched(ps: seq<Process>, next: Process, algorithm: SchedulingAlgorithm, currentTime: int,
                      timeSlice: int, timeQuantum: int): seq<Process>
  {
    DispatchUpTo(ps, |ps|, next.id, currentTime + 1, algorithm, timeSlice, timeQuantum).0
  }

  /** A tick, process by process: the clock advances by one; when nothing
      is selected the processes stay as they were; otherwise each process
      of the result is the original put through the dispatch loop and then
      through the waiting-time update. */
  lemma TickEach(ps: seq<Process>, algorithm: SchedulingAlgorithm, currentTime: int,
                 timeSlice: int, timeQuantum: int, admitBy: int)
    ensures var r := SimulateSchedulingAt(ps, algorithm, currentTime, timeSlice, timeQuantum, admitBy);
      var sel := SelectedProcess(ps, algorithm, timeSlice, timeQuantum, admitBy);
      && r.currentTime == currentTime + 1
      && |r.processes| == |ps|
      && (sel.None? ==> r.processes == ps && r.timeSlice == timeSlice)
      && (sel.Some? ==>
            var d := Dispatched(ps, sel.value, algorithm, currentTime, timeSlice, timeQuantum);
            forall i :: 0 <= i < |ps| ==>
              DispatchedFrom(ps[i], d[i], sel.value.id, currentTime + 1) &&
              r.processes[i] == AccrueOne(d[i], admitBy))
  {
    var sel := SelectedProcess(ps, algorithm, timeSlice, timeQuantum, admitBy);
    if sel.Some? {
      DispatchUpToFrom(ps, |ps|, sel.value.id, currentTime + 1, algorithm, timeSlice, timeQuantum);
    }
  }

  /** The selected process is one of the processes, has arrived by the
      cut-off, has not completed and has work left. */
  lemma SelectedIsAvailable(ps: seq<Process>, algorithm: SchedulingAlgorithm, timeSlice: int,
                            timeQuantum: int, admitBy: int)
    ensures var sel := SelectedProcess(ps, algorithm, timeSlice, timeQuantum, admitBy);
      sel.Some? ==> sel.value in ps && Available(sel.value, admitBy) && HasWork(sel.value)
  {
    var available := AvailableProcesses(ps, admitBy);
    var sel := SelectedProcess(ps, algorithm, timeSlice, timeQuantum, admitBy);
    if sel.Some? {
      var k :| 0 <= k < |available| && available[k] == sel.value;
    }
  }

  /** With unique ids, the only process that carries the selected id is
      the selected process itself. */
  lemma SelectedIndex(ps: seq<Process>, algorithm: SchedulingAlgorithm, timeSlice: int,
                      timeQuantum: int, admitBy: int, i: nat)
    requires UniqueProcessIds(ps) && i < |ps|
    requires SelectedProcess(ps, algorithm, timeSlice, timeQuantum, admitBy).Some?
    requires ps[i].id == SelectedProcess(ps, algorithm, timeSlice, timeQuantum, admitBy).value.id
    ensures ps[i] == SelectedProcess(ps, algorithm, timeSlice, timeQuantum, admitBy).value
  {
    SelectedIsAvailable(ps, algorithm, timeSlice, timeQuantum, admitBy);
  }

  /** One process through the dispatch loop and the waiting-time update:
      its definition is kept, it loses a unit of remaining time exactly
      when it is the selected one, and a completed process that is not
      selected is left as it was. */
  lemma OneProcessThroughTick(p: Process, d: Process, nextId: int, newTime: int, admitBy: int)
    requires DispatchedFrom(p, d, nextId, newTime)
    ensures var q := AccrueOne(d, admitBy);
      && Definition(q) == Definition(p)
      && (p.id == nextId && p.remainingTime > 0 ==> q.remainingTime == p.remainingTime - 1)
      && (p.id != nextId ==> q.remainingTime == p.remainingTime)
      && (p.id != nextId && p.state == Completed ==> q == p)
  {
  }

  /** With unique ids, the process carrying the selected id has arrived
      by the cut-off and has work. */
  lemma SelectedIdArrivedWithWork(ps: seq<Process>, algorithm: SchedulingAlgorithm, timeSlice: int,
                                  timeQuantum: int, admitBy: int)
    requires UniqueProcessIds(ps)
    ensures var sel := SelectedProcess(ps, algorithm, timeSlice, timeQuantum, admitBy);
      sel.Some? ==> forall i :: 0 <= i < |ps| && ps[i].id == sel.value.id ==>
        ps[i].arrivalTime <= admitBy && ps[i].remainingTime > 0
  {
    var sel := SelectedProcess(ps, algorithm, timeSlice, timeQuantum, admitBy);
    if sel.Some? {
      forall i | 0 <= i < |ps| && ps[i].id == sel.value.id
        ensures ps[i].arrivalTime <= admitBy && ps[i].remainingTime > 0
      {
        SelectedIndex(ps, algorithm, timeSlice, timeQuantum, admitBy, i);
        SelectedIsAvailable(ps, algorithm, timeSlice, timeQuantum, admitBy);
      }
    }
  }

  /** A tick never changes what the user defined, and with unique ids it
      leaves completed processes exactly as they were. */
  lemma TickKeepsDefinitions(ps: seq<Process>, algorithm: SchedulingAlgorithm, currentTime: int,
                             timeSlice: int, timeQuantum: int, admitBy: int)
    ensures var r := SimulateSchedulingAt(ps, algorithm, currentTime, timeSlice, timeQuantum, admitBy).processes;
      |r| == |ps| && forall i :: 0 <= i < |ps| ==> Definition(r[i]) == Definition(ps[i])
    ensures var r := SimulateSchedulingAt(ps, algorithm, currentTime, timeSlice, timeQuantum, admitBy).processes;
      UniqueProcessIds(ps) ==> forall i :: 0 <= i < |ps| && ps[i].state == Completed ==> r[i] == ps[i]
  {
    TickEach(ps, algorithm, currentTime, timeSlice, timeQuantum, admitBy);
    var r := SimulateSchedulingAt(ps, algorithm, currentTime, timeSlice, timeQuantum, admitBy).processes;
    var sel := SelectedProcess(ps, algorithm, timeSlice, timeQuantum, admitBy);
    if sel.Some? {
      SelectedIsAvailable(ps, algorithm, timeSlice, timeQuantum, admitBy);
      var d := Dispatched(ps, sel.value, algorithm, currentTime, timeSlice, timeQuantum);
      forall i | 0 <= i < |ps|
        ensures Definition(r[i]) == Definition(ps[i])
        ensures UniqueProcessIds(ps) && ps[i].state == Completed ==> r[i] == ps[i]
      {
        if ps[i].id == sel.value.id && UniqueProcessIds(ps) {
          SelectedIndex(ps, algorithm, timeSlice, timeQuantum, admitBy, i);
        }
        OneProcessThroughTick(ps[i], d[i], sel.value.id, currentTime + 1, admitBy);
      }
    }
  }

  /** With unique ids a tick performs exactly one unit of work when it
      selects a process, on that process alone, and none otherwise. */
  lemma TickRunsOneUnit(ps: seq<Process>, algorithm: SchedulingAlgorithm, currentTime: int,
                        timeSlice: int, timeQuantum: int, admitBy: int)
    requires UniqueProcessIds(ps)
    ensures var r := SimulateSchedulingAt(ps, algorithm, currentTime, timeSlice, timeQuantum, admitBy).processes;
      var sel := SelectedProcess(ps, algorithm, timeSlice, timeQuantum, admitBy);
      |r| == |ps| &&
      forall i :: 0 <= i < |ps| ==>
        r[i].remainingTime == ps[i].remainingTime - (if sel.Some? && sel.value.id == ps[i].id then 1 else 0)
  {
    TickEach(ps, algorithm, currentTime, timeSlice, timeQuantum, admitBy);
    var r := SimulateSchedulingAt(ps, algorithm, currentTime, timeSlice, timeQuantum, admitBy).processes;
    var sel := SelectedProcess(ps, algorithm, timeSlice, timeQuantum, admitBy);
    if sel.Some? {
      SelectedIsAvailable(ps, algorithm, timeSlice, timeQuantum, admitBy);
      var d := Dispatched(ps, sel.value, algorithm, currentTime, timeSlice, timeQuantum);
      forall i | 0 <= i < |ps|
        ensures r[i].remainingTime == ps[i].remainingTime - (if sel.value.id == ps[i].id then 1 else 0)
      {
        if ps[i].id == sel.value.id {
          SelectedIndex(ps, algorithm, timeSlice, timeQuantum, admitBy, i);
        }
        OneProcessThroughTick(ps[i], d[i], sel.value.id, currentTime + 1, admitBy);
      }
    }
  }

  predicate AtMostOneRunning(ps: seq<Process>)
  {
    forall i, j :: 0 <= i < |ps| && 0 <= j < |ps| && ps[i].state == Running && ps[j].state == Running ==> i == j
  }

  /** After the dispatch loop and the waiting-time update, only the
      process with the selected id can be running. */
  lemma RunningOnlyIfSelected(p: Process, d: Process, nextId: int, newTime: int, admitBy: int)
    requires DispatchedFrom(p, d, nextId, newTime) && AccrueOne(d, admitBy).state == Running
    ensures p.id == nextId
  {
  }

  /** With unique ids, a tick keeps at most one process running. */
  lemma TickKeepsAtMostOneRunning(ps: seq<Process>, algorithm: SchedulingAlgorithm, currentTime: int,
                                  timeSlice: int, timeQuantum: int, admitBy: int)
    requires UniqueProcessIds(ps) && AtMostOneRunning(ps)
    ensures AtMostOneRunning(SimulateSchedulingAt(ps, algorithm, currentTime, timeSlice, timeQuantum, admitBy).processes)
  {
    TickEach(ps, algorithm, currentTime, timeSlice, timeQuantum, admitBy);
    var r := SimulateSchedulingAt(ps, algorithm, currentTime, timeSlice, timeQuantum, admitBy).processes;
    var sel := SelectedProcess(ps, algorithm, timeSlice, timeQuantum, admitBy);
    if sel.Some? {
      var d := Dispatched(ps, sel.value, algorithm, currentTime, timeSlice, timeQuantum);
      forall i, j | 0 <= i < |ps| && 0 <= j < |ps| && r[i].state == Running && r[j].state == Running
        ensures i == j
      {
        RunningOnlyIfSelected(ps[i], d[i], sel.value.id, currentTime + 1, admitBy);
        RunningOnlyIfSelected(ps[j], d[j], sel.value.id, currentTime + 1, admitBy);
      }
    }
  }


  /** With unique ids, when a process is selected every other process
      that has arrived by the cut-off, waits or ran until now, and has
      work left gains one unit of waiting time. */
  lemma TickAccruesWaiting(ps: seq<Process>, algorithm: SchedulingAlgorithm, currentTime: int,
                           timeSlice: int, timeQuantum: int, admitBy: int)
    requires UniqueProcessIds(ps)
    ensures var r := SimulateSchedulingAt(ps, algorithm, currentTime, timeSlice, timeQuantum, admitBy).processes;
      var sel := SelectedProcess(ps, algorithm, timeSlice, timeQuantum, admitBy);
      sel.Some? ==>
        forall i :: 0 <= i < |ps| && ps[i].id != sel.value.id && ps[i].state != Completed &&
                    ps[i].arrivalTime <= admitBy && ps[i].remainingTime > 0 ==>
          r[i].waitingTime == ps[i].waitingTime + 1
  {
    TickEach(ps, algorithm, currentTime, timeSlice, timeQuantum, admitBy);
  }

  /** With unique ids, the slice counter changes only at the process
      carrying the selected id: the loop ends with the counter that
      process's run produces from the initial one, and that process is
      run with the initial counter. */
  lemma {:induction false} DispatchUpToSlice(ps: seq<Process>, n: nat, nextId: int, newTime: int,
                                             algorithm: SchedulingAlgorithm, timeSlice: int, timeQuantum: int)
    requires n <= |ps| && UniqueProcessIds(ps)
    ensures var d := DispatchUpTo(ps, n, nextId, newTime, algorithm, timeSlice, timeQuantum);
      (forall i :: 0 <= i < n ==> ps[i].id != nextId) ==> d.1 == timeSlice
    ensures var d := DispatchUpTo(ps, n, nextId, newTime, algorithm, timeSlice, timeQuantum);
      forall k :: 0 <= k < n && ps[k].id == nextId ==>
        (d.0[k], d.1) == RunSelected(ps[k], newTime, algorithm, timeSlice, timeQuantum)
  {
    if n > 0 {
      var prev := DispatchUpTo(ps, n - 1, nextId, newTime, algorithm, timeSlice, timeQuantum);
      DispatchUpToSlice(ps, n - 1, nextId, newTime, algorithm, timeSlice, timeQuantum);
      var d := DispatchUpTo(ps, n, nextId, newTime, algorithm, timeSlice, timeQuantum);
      assert forall k :: 0 <= k < n - 1 ==> d.0[k] == prev.0[k];
      if ps[n - 1].id == nextId {
        assert forall i :: 0 <= i < n - 1 ==> ps[i].id != ps[n - 1].id;
      }
    }
  }

  /** With unique ids, the process at `k` that carries the selected id
      ends the tick as the source's dispatch loop leaves it: with no time
      left it is completed and the slice counter is reset; otherwise under
      Round Robin it goes back to waiting with the counter reset when its
      slice reaches the quantum, and gains the waiting unit of the same
      tick, or keeps running with the counter one higher; under the other
      policies it keeps running and the counter is left as it was. */
  lemma TickSelectedOutcome(ps: seq<Process>, algorithm: SchedulingAlgorithm, currentTime: int,
                            timeSlice: int, timeQuantum: int, admitBy: int, k: nat)
    requires UniqueProcessIds(ps) && k < |ps|
    requires SelectedProcess(ps, algorithm, timeSlice, timeQuantum, admitBy).Some?
    requires ps[k].id == SelectedProcess(ps, algorithm, timeSlice, timeQuantum, admitBy).value.id
    ensures var r := SimulateSchedulingAt(ps, algorithm, currentTime, timeSlice, timeQuantum, admitBy);
      var p, q := ps[k], r.processes[k];
      && (p.remainingTime <= 1 ==> q.state == Completed && r.timeSlice == 0)
      && (p.remainingTime > 1 && algorithm == RR && timeSlice + 1 >= timeQuantum ==>
            q.state == Waiting && r.timeSlice == 0 && q.waitingTime == p.waitingTime + 1)
      && (p.remainingTime > 1 && algorithm == RR && timeSlice + 1 < timeQuantum ==>
            q.state == Running && r.timeSlice == timeSlice + 1 && q.waitingTime == p.waitingTime)
      && (p.remainingTime > 1 && algorithm != RR ==>
            q.state == Running && r.timeSlice == timeSlice && q.waitingTime == p.waitingTime)
  {
    var sel := SelectedProcess(ps, algorithm, timeSlice, timeQuantum, admitBy).value;
    SelectedIdArrivedWithWork(ps, algorithm, timeSlice, timeQuantum, admitBy);
    DispatchUpToSlice(ps, |ps|, sel.id, currentTime + 1, algorithm, timeSlice, timeQuantum);
    TickDispatches(ps, algorithm, currentTime, timeSlice, timeQuantum, admitBy, sel);
  }

  // ---------------------------------------------------------------------
  // Soundness of the statistics, and the arrival cut-off

  /** The counters of a process are consistent at `clock` for a tick that
      admits processes up to `slack` time units ahead of the clock: it
      has run no more than it has been present, a running process has
      work, and a completed one carries the statistics of its completion
      with a burst at most `slack` units longer than its turnaround. */
  predicate ProcessSound(p: Process, clock: int, slack: int)
  {
    && p.remainingTime <= p.burstTime
    && p.burstTime - p.remainingTime <= Max(0, clock + slack - p.arrivalTime)
    && (p.state == Running ==> p.remainingTime > 0)
    && (p.state == Completed ==>
          && p.remainingTime == 0
          && p.completionTime <= clock
          && p.turnaroundTime == p.completionTime - p.arrivalTime
          && p.waitingTime == p.turnaroundTime - p.burstTime
          && p.burstTime <= p.turnaroundTime + slack)
  }

  predicate AllSound(ps: seq<Process>, clock: int, slack: int)
  {
    forall i :: 0 <= i < |ps| ==> ProcessSound(ps[i], clock, slack)
  }

  /** A process that has not started is sound at any clock. */
  lemma UnstartedIsSound(p: Process, clock: int, slack: int)
    requires Unstarted(p)
    ensures ProcessSound(p, clock, slack)
  {
  }

  /** A completed sound process has waited at least `-slack` units. */
  lemma CompletedWaitingBound(p: Process, clock: int, slack: int)
    requires ProcessSound(p, clock, slack) && p.state == Completed
    ensures p.waitingTime >= -slack
  {
  }

  lemma SoundLater(p: Process, clock: int, slack: int)
    requires ProcessSound(p, clock, slack)
    ensures ProcessSound(p, clock + 1, slack)
  {
  }

  /** One process through one tick keeps its counters sound. */
  lemma StepSound(p: Process, q: Process, nextId: int, clock: int, slack: int)
    requires ProcessSound(p, clock, slack) && DispatchedFrom(p, q, nextId, clock + 1)
    requires p.id == nextId ==> p.arrivalTime <= clock + slack && p.remainingTime > 0
    ensures ProcessSound(AccrueOne(q, clock + slack), clock + 1, slack)
  {
  }

  /** With unique ids, a tick whose cut-off is `slack` units ahead of the
      clock keeps every process sound. */
  lemma TickKeepsSound(ps: seq<Process>, algorithm: SchedulingAlgorithm, currentTime: int,
                         timeSlice: int, timeQuantum: int, slack: int, admitBy: int)
    requires admitBy == currentTime + slack
    requires UniqueProcessIds(ps) && AllSound(ps, currentTime, slack)
    ensures AllSound(SimulateSchedulingAt(ps, algorithm, currentTime, timeSlice, timeQuantum, admitBy).processes, currentTime + 1, slack)
  {
    TickEach(ps, algorithm, currentTime, timeSlice, timeQuantum, admitBy);
    var sel := SelectedProcess(ps, algorithm, timeSlice, timeQuantum, admitBy);
    if sel.None? {
      AllSoundLater(ps, currentTime, slack);
    } else {
      SelectedTickKeepsSound(ps, algorithm, currentTime, timeSlice, timeQuantum, slack, admitBy);
    }
  }

  lemma AllSoundLater(ps: seq<Process>, clock: int, slack: int)
    requires AllSound(ps, clock, slack)
    ensures AllSound(ps, clock + 1, slack)
  {
    forall i | 0 <= i < |ps|
      ensures ProcessSound(ps[i], clock + 1, slack)
    {
      SoundLater(ps[i], clock, slack);
    }
  }

  /** The case of `TickKeepsSound` where a process is selected. */
  lemma SelectedTickKeepsSound(ps: seq<Process>, algorithm: SchedulingAlgorithm, currentTime: int,
                               timeSlice: int, timeQuantum: int, slack: int, admitBy: int)
    requires admitBy == currentTime + slack
    requires UniqueProcessIds(ps) && AllSound(ps, currentTime, slack)
    requires SelectedProcess(ps, algorithm, timeSlice, timeQuantum, admitBy).Some?
    ensures AllSound(SimulateSchedulingAt(ps, algorithm, currentTime, timeSlice, timeQuantum, admitBy).processes, currentTime + 1, slack)
  {
    TickEach(ps, algorithm, currentTime, timeSlice, timeQuantum, admitBy);
    var r := SimulateSchedulingAt(ps, algorithm, currentTime, timeSlice, timeQuantum, admitBy).processes;
    var sel := SelectedProcess(ps, algorithm, timeSlice, timeQuantum, admitBy).value;
    SelectedIdArrivedWithWork(ps, algorithm, timeSlice, timeQuantum, admitBy);
    SoundThroughTick(ps, Dispatched(ps, sel, algorithm, currentTime, timeSlice, timeQuantum), r, sel.id, currentTime, slack, admitBy);
  }

  /** Every process put through the dispatch loop and the waiting-time
      update stays sound, provided the selected one had arrived by the
      cut-off and had work. */
  lemma SoundThroughTick(ps: seq<Process>, d: seq<Process>, r: seq<Process>, nextId: int, clock: int,
                          slack: int, admitBy: int)
    requires admitBy == clock + slack
    requires |d| == |ps| && |r| == |ps| && AllSound(ps, clock, slack)
    requires forall i :: 0 <= i < |ps| ==>
      DispatchedFrom(ps[i], d[i], nextId, clock + 1) && r[i] == AccrueOne(d[i], admitBy)
    requires forall i :: 0 <= i < |ps| && ps[i].id == nextId ==>
      ps[i].arrivalTime <= admitBy && ps[i].remainingTime > 0
    ensures AllSound(r, clock + 1, slack)
  {
    forall i | 0 <= i < |ps|
      ensures ProcessSound(r[i], clock + 1, slack)
    {
      StepSound(ps[i], d[i], nextId, clock, slack);
    }
  }

  /** As written, a process that arrives at the new time of a tick runs
      in that tick: alone in the system with arrival 1 and burst 1 it
      completes at 1 with a waiting time of -1. */
  lemma NegativeWaitingAsWritten()
    ensures var r := SimulateScheduling([NewProcess(1, "P", 1, 1, 1)], FCFS, 0, 0, InitialTimeQuantum);
      r.processes[0].state == Completed && r.processes[0].completionTime == 1 &&
      r.processes[0].turnaroundTime == 0 && r.processes[0].waitingTime == -1
  {
    var p := NewProcess(1, "P", 1, 1, 1);
    assert AvailableProcesses([p], 1) == [p];
    assert SelectedProcess([p], FCFS, 0, InitialTimeQuantum, 1) == Some(p);
    TickEach([p], FCFS, 0, 0, InitialTimeQuantum, 1);
  }

  /** With the cut-off at the start of the time unit, the same process
      waits for its arrival and then completes at 2 with no waiting. */
  lemma CorrectedScenario()
    ensures var first := SimulateSchedulingCorrected([NewProcess(1, "P", 1, 1, 1)], FCFS, 0, 0, InitialTimeQuantum);
      var second := SimulateSchedulingCorrected(first.processes, FCFS, first.currentTime, first.timeSlice, InitialTimeQuantum);
      first.processes == [NewProcess(1, "P", 1, 1, 1)] && first.currentTime == 1 &&
      second.processes[0].state == Completed && second.processes[0].completionTime == 2 &&
      second.processes[0].waitingTime == 0
  {
    var p := NewProcess(1, "P", 1, 1, 1);
    assert AvailableProcesses([p], 0) == [];
    var first := SimulateSchedulingCorrected([p], FCFS, 0, 0, InitialTimeQuantum);
    assert first.processes == [p];
    assert AvailableProcesses([p], 1) == [p];
    assert SelectedProcess([p], FCFS, 0, InitialTimeQuantum, 1) == Some(p);
    TickEach([p], FCFS, 1, 0, InitialTimeQuantum, 1);
  }

  /** With the corrected cut-off, no completed process ever shows a
      negative waiting time: soundness with no slack holds from the start
      and every tick keeps it. */
  lemma CorrectedTickNeverNegativeWaiting(ps: seq<Process>, algorithm: SchedulingAlgorithm, currentTime: int,
                                          timeSlice: int, timeQuantum: int)
    requires UniqueProcessIds(ps) && AllSound(ps, currentTime, 0)
    ensures var r := SimulateSchedulingCorrected(ps, algorithm, currentTime, timeSlice, timeQuantum).processes;
      AllSound(r, currentTime + 1, 0) &&
      forall i :: 0 <= i < |r| && r[i].state == Completed ==> r[i].waitingTime >= 0
  {
    TickKeepsSound(ps, algorithm, currentTime, timeSlice, timeQuantum, 0, currentTime);
  }

  /** As written, the waiting time of a completed process is never below
      -1, so the scenario above is the worst case. */
  lemma AsWrittenWaitingAtLeastMinusOne(ps: seq<Process>, algorithm: SchedulingAlgorithm, currentTime: int,
                                        timeSlice: int, timeQuantum: int)
    requires UniqueProcessIds(ps) && AllSound(ps, currentTime, 1)
    ensures var r := SimulateScheduling(ps, algorithm, currentTime, timeSlice, timeQuantum).processes;
      AllSound(r, currentTime + 1, 1) &&
      forall i :: 0 <= i < |r| && r[i].state == Completed ==> r[i].waitingTime >= -1
  {
    TickKeepsSound(ps, algorithm, currentTime, timeSlice, timeQuantum, 1, currentTime + 1);
  }
}
