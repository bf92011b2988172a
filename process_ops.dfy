/**
 * The operations a process object of src/core/kernel/process.ts offers its
 * own `run()`: spawning through the kernel, checking for its parent, and
 * the `memory` getter that fetches its memory from the kernel once and then
 * keeps returning the same object.
 */
module ProcessOps {
  import opened Base
  import opened ProcessTypes
  import opened KernelSpec
  import K = Kernel

  /** A process object: its identity, the kernel it runs in and the cached `memory`. */
  class ProcessHandle {
    const kernel: K.Kernel
    const process: Process
    var cached: Option<ProcessMemory>

    /** Before the first read of `memory` nothing is cached. */
    constructor (kernel: K.Kernel, process: Process)
      ensures this.kernel == kernel && this.process == process && cached == None
    {
      this.kernel := kernel;
      this.process := process;
      cached := None;
    }

    /**
     * The `memory` getter. The first read fetches (and, if missing, creates)
     * the kernel's entry for this pid and caches it; every later read returns
     * the cached object and leaves the kernel alone.
     */
    method Memory() returns (m: ProcessMemory)
      modifies this, kernel
      ensures cached == Some(m)
      ensures old(cached).Some? ==> m == old(cached).value && unchanged(kernel)
      ensures old(cached).None? ==>
        kernel.pmem == Some(old(kernel.pmem).GetOr(map[])[process.pid := m])
        && (old(kernel.pmem).Some? && process.pid in old(kernel.pmem).value ==> m == old(kernel.pmem).value[process.pid])
        && kernel.processTable == old(kernel.processTable) && kernel.nextPid == old(kernel.nextPid)
        && kernel.proc == old(kernel.proc)
      ensures old(cached).None? && !(old(kernel.pmem).Some? && process.pid in old(kernel.pmem).value) ==> fresh(m)
    {
      if cached.Some? {
        return cached.value;
      }
      m := kernel.GetProcessMemory(process.pid);
      cached := Some(m);
    }

    /** `spawnChildProcess(ctor)`: spawn with this process as the parent. */
    method SpawnChildProcess(ctor: ProcessCtor) returns (r: Result<Process, K.KernelError>)
      requires kernel.Valid()
      modifies kernel
      ensures kernel.Valid()
      ensures kernel.nextPid == old(kernel.nextPid) + 1
      ensures old(kernel.nextPid) !in old(kernel.processTable) ==>
        r == Ok(NewProcess(ctor, old(kernel.nextPid), process.pid))
        && kernel.processTable == old(kernel.processTable)[old(kernel.nextPid) := KernelRecord(ctor.baseHeat, r.value)]
      ensures old(kernel.nextPid) in old(kernel.processTable) ==>
        r == Err(K.DuplicatePid) && kernel.processTable == old(kernel.processTable)
      ensures kernel.proc == old(kernel.proc) && kernel.pmem == old(kernel.pmem)
      ensures old(kernel.FreshPids()) ==> r.Ok? && kernel.FreshPids()
    {
      r := kernel.SpawnProcess(ctor, process.pid);
    }

    /** `spawnIndependentProcess(ctor)`: spawn with the root pid 0 as the parent. */
    method SpawnIndependentProcess(ctor: ProcessCtor) returns (r: Result<Process, K.KernelError>)
      requires kernel.Valid()
      modifies kernel
      ensures kernel.Valid()
      ensures kernel.nextPid == old(kernel.nextPid) + 1
      ensures old(kernel.nextPid) !in old(kernel.processTable) ==>
        r == Ok(NewProcess(ctor, old(kernel.nextPid), 0))
        && kernel.processTable == old(kernel.processTable)[old(kernel.nextPid) := KernelRecord(ctor.baseHeat, r.value)]
      ensures old(kernel.nextPid) in old(kernel.processTable) ==>
        r == Err(K.DuplicatePid) && kernel.processTable == old(kernel.processTable)
      ensures kernel.proc == old(kernel.proc) && kernel.pmem == old(kernel.pmem)
      ensures old(kernel.FreshPids()) ==> r.Ok? && kernel.FreshPids()
    {
      r := kernel.SpawnProcess(ctor, 0);
    }

    /**
     * `assertParentProcess()`: throws exactly when the table holds no record
     * for the parent pid; a parent that has exited or terminated still passes.
     */
    function AssertParentProcess(): (r: Result<(), K.KernelError>)
      reads kernel
      ensures r.Err? <==> process.parentPid !in kernel.processTable
      ensures r.Err? ==> r.error == K.ProcessNotFound
    {
      match kernel.GetProcessByIdOrThrow(process.parentPid)
      case Ok(_) => Ok(())
      case Err(e) => Err(e)
    }
  }

  /**
   * Reading `memory` twice returns the same object both times, and the
   * second read does not touch the kernel.
   */
  method MemoryTwice(h: ProcessHandle) returns (m1: ProcessMemory, m2: ProcessMemory)
    modifies h, h.kernel
    ensures m1 == m2
    ensures h.cached == Some(m1)
  {
    m1 := h.Memory();
    m2 := h.Memory();
  }
}
