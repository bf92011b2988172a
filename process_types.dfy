/**
 * The values the tick-driven kernel (src/core/kernel) schedules: process
 * statuses, process classes ("constructors") with their base heat, and the
 * state of one process instance.
 */
module ProcessTypes {
  import opened Base

  /** A process ID; JavaScript numbers used as integers. */
  type Pid = int

  /** ProcessStatus: TERM = -2, EXIT = -1, RUN = 0. */
  datatype Status = TERM | EXIT | RUN {
    function Code(): int {
      match this
      case TERM => -2
      case EXIT => -1
      case RUN => 0
    }
  }

  /** `status < ProcessStatus.RUN` holds exactly for the two dead statuses. */
  lemma BelowRunIsDead(s: Status)
    ensures s.Code() < RUN.Code() <==> s != RUN
    ensures s.Code() >= RUN.Code() <==> s == RUN
  {
  }

  /** Base heat of a process class that does not override it. */
  const DefaultBaseHeat: int := 10

  /**
   * A registered process class: the name it registers under (its static
   * `className`) and the base heat its instances carry.
   */
  datatype ProcessCtor = ProcessCtor(className: string, baseHeat: int)

  /** A process class declared with or without its own `baseHeat` field. */
  function DeclareProcessClass(className: string, baseHeatOverride: Option<int>): (c: ProcessCtor)
    ensures c.className == className
    ensures baseHeatOverride.None? ==> c.baseHeat == DefaultBaseHeat
    ensures baseHeatOverride.Some? ==> c.baseHeat == baseHeatOverride.value
  {
    ProcessCtor(className, baseHeatOverride.GetOr(DefaultBaseHeat))
  }

  /** InitProcess overrides the base heat with 1000. */
  const InitProcessClass: ProcessCtor := DeclareProcessClass("InitProcess", Some(1000))

  /** MemoryCleanerProcess overrides the base heat with 2. */
  const MemoryCleanerClass: ProcessCtor := DeclareProcessClass("MemoryCleanerProcess", Some(2))

  /** The state of one process instance. */
  datatype Process = Process(pid: Pid, parentPid: Pid, baseHeat: int, className: string, status: Status)

  /**
   * `new ctor(kernel, pid, parentPid)`: a fresh instance of the class, running,
   * with the given identity and the class's base heat and name.
   */
  function NewProcess(ctor: ProcessCtor, pid: Pid, parentPid: Pid): (p: Process)
    ensures p.status == RUN
    ensures p.pid == pid && p.parentPid == parentPid
    ensures p.baseHeat == ctor.baseHeat && p.className == ctor.className
  {
    Process(pid, parentPid, ctor.baseHeat, ctor.className, RUN)
  }
}
