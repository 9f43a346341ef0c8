/** The processes of the scheduling page: what the user defines for a
    process, the counters the simulation keeps for it, and the page's
    own operations on the process list (add, reset, example data). */
module ProcessScheduling {
  import opened Common

  datatype ProcessState = Waiting | Running | Completed

  datatype Process = Process(
    id: int,
    name: string,
    arrivalTime: int,
    burstTime: int,
    priority: int,
    remainingTime: int,
    waitingTime: int,
    turnaroundTime: int,
    completionTime: int,
    state: ProcessState)

  datatype SchedulingAlgorithm = FCFS | RR | Priority | SJF

  /** The fields the user enters; no part of the simulation changes them. */
  datatype ProcessDefinition = ProcessDefinition(
    id: int, name: string, arrivalTime: int, burstTime: int, priority: int)

  function Definition(p: Process): ProcessDefinition
  {
    ProcessDefinition(p.id, p.name, p.arrivalTime, p.burstTime, p.priority)
  }

  /** The page's initial time quantum for Round Robin. */
  const InitialTimeQuantum: int := 2

  /** A process that has not run yet: all of its burst remains, its
      statistics are zero and it waits. */
  predicate Unstarted(p: Process)
  {
    p.remainingTime == p.burstTime && p.waitingTime == 0 && p.turnaroundTime == 0 &&
    p.completionTime == 0 && p.state == Waiting
  }

  /** The process `addProcess` builds from the form. */
  function NewProcess(id: int, name: string, arrivalTime: int, burstTime: int, priority: int): (p: Process)
    ensures Unstarted(p)
    ensures Definition(p) == ProcessDefinition(id, name, arrivalTime, burstTime, priority)
  {
    Process(id, name, arrivalTime, burstTime, priority, burstTime, 0, 0, 0, Waiting)
  }

  /** One process as `resetSimulation` maps it. */
  function ResetProcess(p: Process): (r: Process)
    ensures Definition(r) == Definition(p) && Unstarted(r)
  {
    p.(remainingTime := p.burstTime, waitingTime := 0, turnaroundTime := 0,
       completionTime := 0, state := Waiting)
  }

  /** The process list after `resetSimulation`: the same processes, in the
      same order, none of them started. */
  function ResetProcesses(ps: seq<Process>): (r: seq<Process>)
    ensures |r| == |ps|
    ensures forall i :: 0 <= i < |r| ==> Definition(r[i]) == Definition(ps[i]) && Unstarted(r[i])
  {
    seq(|ps|, i requires 0 <= i < |ps| => ResetProcess(ps[i]))
  }

  /** A process is determined by its definition once it is unstarted. */
  lemma UnstartedDeterminedByDefinition(p: Process, q: Process)
    requires Unstarted(p) && Unstarted(q) && Definition(p) == Definition(q)
    ensures p == q
  {
  }

  /** Resetting twice is resetting once. */
  lemma ResetIdempotent(ps: seq<Process>)
    ensures ResetProcesses(ResetProcesses(ps)) == ResetProcesses(ps)
  {
    var once := ResetProcesses(ps);
    var twice := ResetProcesses(once);
    forall i | 0 <= i < |ps|
      ensures twice[i] == once[i]
    {
      UnstartedDeterminedByDefinition(twice[i], once[i]);
    }
  }

  predicate UniqueProcessIds(ps: seq<Process>)
  {
    forall i, j :: 0 <= i < j < |ps| ==> ps[i].id != ps[j].id
  }

  /** Records with the definitions of `ps`, position by position, keep
      its ids unique. */
  lemma SameDefinitionsUniqueIds(ps: seq<Process>, qs: seq<Process>)
    requires UniqueProcessIds(ps) && |qs| == |ps|
    requires forall i :: 0 <= i < |ps| ==> Definition(qs[i]) == Definition(ps[i])
    ensures UniqueProcessIds(qs)
  {
    forall i, j | 0 <= i < j < |qs|
      ensures qs[i].id != qs[j].id
    {
      assert Definition(qs[i]) == Definition(ps[i]) && Definition(qs[j]) == Definition(ps[j]);
    }
  }

  /** The four processes of `loadExampleData`. */
  function ExampleProcesses(): seq<Process>
  {
    [ NewProcess(1, "P1", 0, 8, 3),
      NewProcess(2, "P2", 1, 4, 1),
      NewProcess(3, "P3", 2, 9, 4),
      NewProcess(4, "P4", 3, 5, 2) ]
  }

  lemma ExampleProcessesFacts()
    ensures |ExampleProcesses()| == 4
    ensures UniqueProcessIds(ExampleProcesses())
    ensures forall i :: 0 <= i < 4 ==> Unstarted(ExampleProcesses()[i])
  {
  }
}
