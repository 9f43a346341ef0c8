/** The state of the process scheduling page together with the slice
    counter of its queue component, and the operations that change it:
    the form's `addProcess`, the control buttons, and the tick the
    interval timer fires while the simulation runs. */
module SchedulingSimulator {
  import opened Common
  import opened ProcessScheduling
  import opened ProcessQueue

  /** The first `forEach` of a tick: the process with id `nextId` runs
      one unit (completing, or under Round Robin returning to waiting
      when its slice reaches the quantum) and every other running
      process goes back to waiting; the slice counter is threaded along. */
  method DispatchProcesses(ps: seq<Process>, nextId: int, newTime: int, algorithm: SchedulingAlgorithm,
                           timeSlice: int, timeQuantum: int) returns (newProcesses: seq<Process>, slice: int)
    ensures (newProcesses, slice) == DispatchUpTo(ps, |ps|, nextId, newTime, algorithm, timeSlice, timeQuantum)
  {
    newProcesses := ps;
    slice := timeSlice;
    var i := 0;
    while i < |ps|
      invariant 0 <= i <= |ps| == |newProcesses|
      invariant (newProcesses[..i], slice) == DispatchUpTo(ps, i, nextId, newTime, algorithm, timeSlice, timeQuantum)
      invariant newProcesses[i..] == ps[i..]
    {
      var p := newProcesses[i];
      assert p == ps[i];
      if p.id == nextId {
        p := p.(state := Running, remainingTime := Max(0, p.remainingTime - 1));
        if p.remainingTime == 0 {
          p := p.(state := Completed, completionTime := newTime);
          p := p.(turnaroundTime := p.completionTime - p.arrivalTime);
          p := p.(waitingTime := p.turnaroundTime - p.burstTime);
          slice := 0;
        } else if algorithm == RR {
          slice := slice + 1;
          if slice >= timeQuantum {
            p := p.(state := Waiting);
            slice := 0;
          }
        }
      } else if p.state == Running {
        p := p.(state := Waiting);
      }
      newProcesses := newProcesses[i := p];
      assert newProcesses[..i + 1] == newProcesses[..i] + [p];
      i := i + 1;
    }
    assert newProcesses[..|ps|] == newProcesses;
  }

  /** The second `forEach` of a tick: every process that has arrived by
      `admitBy`, waits and has work left gains a unit of waiting time. */
  method AccrueWaitingTime(ps: seq<Process>, admitBy: int) returns (newProcesses: seq<Process>)
    ensures newProcesses == AccrueWaiting(ps, admitBy)
  {
    newProcesses := ps;
    var i := 0;
    while i < |ps|
      invariant 0 <= i <= |ps| == |newProcesses|
      invariant forall j :: 0 <= j < i ==> newProcesses[j] == AccrueOne(ps[j], admitBy)
      invariant forall j :: i <= j < |ps| ==> newProcesses[j] == ps[j]
    {
      var p := newProcesses[i];
      if p.arrivalTime <= admitBy && p.state == Waiting && p.remainingTime > 0 {
        newProcesses := newProcesses[i := p.(waitingTime := p.waitingTime + 1)];
      }
      i := i + 1;
    }
  }

  /** The body of `simulateScheduling` up to the state updates, with
      processes admitted when they have arrived by the current time: the
      new processes, clock and slice counter are those of the tick
      function. */
  method SimulateTick(ps: seq<Process>, algorithm: SchedulingAlgorithm, currentTime: int,
                      timeSlice: int, timeQuantum: int)
    returns (newProcesses: seq<Process>, newTime: int, slice: int)
    ensures TickResult(newProcesses, newTime, slice) ==
            SimulateSchedulingCorrected(ps, algorithm, currentTime, timeSlice, timeQuantum)
  {
    newProcesses, newTime, slice := ps, currentTime + 1, timeSlice;
    var available := AvailableProcesses(ps, currentTime);
    if |available| == 0 {
      TickIdles(ps, algorithm, currentTime, timeSlice, timeQuantum, currentTime);
      return;
    }
    var next := SelectNextProcess(available, algorithm, timeSlice, timeQuantum);
    if next.Some? {
      TickDispatches(ps, algorithm, currentTime, timeSlice, timeQuantum, currentTime, next.value);
      var dispatched;
      dispatched, slice := DispatchProcesses(ps, next.value.id, newTime, algorithm, timeSlice, timeQuantum);
      newProcesses := AccrueWaitingTime(dispatched, currentTime);
    } else {
      TickIdles(ps, algorithm, currentTime, timeSlice, timeQuantum, currentTime);
    }
  }

  class Simulation {
    var processes: seq<Process>
    var algorithm: SchedulingAlgorithm
    var isRunning: bool
    var currentTime: int
    var timeQuantum: int
    /** The queue component's `timeSliceRef`: units the running process
        has used of its Round Robin quantum. */
    var timeSlice: int

    /** Process ids are distinct, at most one process runs, and every
        process's counters are consistent with the clock. */
    ghost predicate Valid()
      reads this
    {
      UniqueProcessIds(processes) && AtMostOneRunning(processes) && AllSound(processes, currentTime, 0)
    }

    constructor()
      ensures Valid()
      ensures processes == [] && algorithm == FCFS && !isRunning && currentTime == 0
      ensures timeQuantum == InitialTimeQuantum && timeSlice == 0
    {
      processes := [];
      algorithm := FCFS;
      isRunning := false;
      currentTime := 0;
      timeQuantum := InitialTimeQuantum;
      timeSlice := 0;
    }

    /** `addProcess`: a blank name changes nothing; otherwise an unstarted
        process is appended. `id` stands for `Date.now()` and is required
        to differ from every id already in use. */
    method AddProcess(name: string, arrivalTime: int, burstTime: int, priority: int, id: int)
      requires Valid()
      requires forall i :: 0 <= i < |processes| ==> processes[i].id != id
      modifies this`processes
      ensures Valid()
      ensures IsBlank(name) ==> processes == old(processes)
      ensures !IsBlank(name) ==> processes == old(processes) + [NewProcess(id, name, arrivalTime, burstTime, priority)]
    {
      if IsBlank(name) {
        return;
      }
      var p := NewProcess(id, name, arrivalTime, burstTime, priority);
      UnstartedIsSound(p, currentTime, 0);
      processes := processes + [p];
    }

    /** `resetSimulation`: stopped, the clock at 0, every process back to
        its unstarted state; the slice counter is left as it was. */
    method ResetSimulation()
      requires Valid()
      modifies this`processes, this`currentTime, this`isRunning
      ensures Valid()
      ensures !isRunning && currentTime == 0 && processes == ResetProcesses(old(processes))
    {
      isRunning := false;
      currentTime := 0;
      processes := ResetProcesses(processes);
      forall i, j | 0 <= i < j < |processes|
        ensures processes[i].id != processes[j].id
      {
        assert Definition(processes[i]) == Definition(old(processes)[i]);
        assert Definition(processes[j]) == Definition(old(processes)[j]);
      }
    }

    /** `clearAllProcesses`. */
    method ClearAllProcesses()
      modifies this`processes, this`currentTime, this`isRunning
      ensures Valid()
      ensures processes == [] && currentTime == 0 && !isRunning
    {
      processes := [];
      currentTime := 0;
      isRunning := false;
    }

    /** `loadExampleData`: the four example processes, stopped at time 0. */
    method LoadExampleData()
      modifies this`processes, this`currentTime, this`isRunning
      ensures Valid()
      ensures processes == ExampleProcesses() && currentTime == 0 && !isRunning
    {
      ExampleProcessesFacts();
      processes := ExampleProcesses();
      currentTime := 0;
      isRunning := false;
    }

    method SetAlgorithm(a: SchedulingAlgorithm)
      modifies this`algorithm
      ensures algorithm == a
    {
      algorithm := a;
    }

    method SetTimeQuantum(q: int)
      modifies this`timeQuantum
      ensures timeQuantum == q
    {
      timeQuantum := q;
    }

    /** The start/pause button. */
    method ToggleRunning()
      modifies this`isRunning
      ensures isRunning == !old(isRunning)
    {
      isRunning := !isRunning;
    }

    /** One tick of `simulateScheduling`, with processes admitted when they
        have arrived by the current time: the processes, the clock and the
        slice counter become those of the tick function, the invariant is
        kept, and no completed process has a negative waiting time. */
    method Tick()
      requires Valid()
      modifies this`processes, this`currentTime, this`timeSlice
      ensures Valid()
      ensures var r := SimulateSchedulingCorrected(old(processes), old(algorithm), old(currentTime), old(timeSlice), old(timeQuantum));
        processes == r.processes && currentTime == r.currentTime && timeSlice == r.timeSlice
      ensures forall i :: 0 <= i < |processes| && processes[i].state == Completed ==> processes[i].waitingTime >= 0
    {
      var ps, t, slice0 := processes, currentTime, timeSlice;
      CorrectedTickNeverNegativeWaiting(ps, algorithm, t, slice0, timeQuantum);
      TickKeepsAtMostOneRunning(ps, algorithm, t, slice0, timeQuantum, t);
      TickKeepsDefinitions(ps, algorithm, t, slice0, timeQuantum, t);
      SameDefinitionsUniqueIds(ps, SimulateSchedulingCorrected(ps, algorithm, t, slice0, timeQuantum).processes);
      processes, currentTime, timeSlice := SimulateTick(ps, algorithm, t, slice0, timeQuantum);
    }
  }
}
