/**
 * The tick-driven kernel of src/core/kernel/kernel.ts as a class over its
 * process table and the kernel memory it persists (`kpar.nextPid`, `proc`,
 * `pmem`). Each state-changing method is proved against the value-level
 * specification in module KernelSpec.
 */
module Kernel {
  import opened Base
  import opened ProcessTypes
  import opened KernelSpec
  import Registry

  /** Kernel.PID_MAX, PID_WARN_LEVEL and PID_WARN_RATE. */
  const PidMax: int := 1000000
  const PidWarnLevel: int := 1000
  const PidWarnRate: int := 10

  /** `kpar`: the persisted kernel parameters; only the pid counter is modelled. */
  datatype KernelParameters = KernelParameters(nextPid: Option<int>)

  /** The kernel's slice of game memory: parameters, saved table, process memories. */
  datatype KernelMemory = KernelMemory(kpar: Option<KernelParameters>, proc: Option<seq<SerializedProcess>>, pmem: PMem)

  /** The exceptions the kernel throws or the errors it logs. */
  datatype KernelError = DuplicatePid | ReplacementPid | ClassNameNotDefined | ProcessNotFound

  /** `kmem.kpar.nextPid`, undefined when either is unset. */
  function StoredNextPid(kmem: KernelMemory): Option<int> {
    if kmem.kpar.Some? then kmem.kpar.value.nextPid else None
  }

  /**
   * `applyKMemDefaults(kmem, reset)`. A reset empties the saved table and
   * the process memories and keeps the pid counter; otherwise only missing
   * parts are filled in. In both cases a missing counter becomes 1.
   */
  function ApplyKMemDefaults(kmem: KernelMemory, reset: bool): (r: KernelMemory)
    ensures StoredNextPid(r) == Some(StoredNextPid(kmem).GetOr(1))
    ensures reset ==> r.proc == Some([]) && r.pmem == Some(map[])
    ensures !reset ==> r.proc == Some(kmem.proc.GetOr([])) && r.pmem == Some(kmem.pmem.GetOr(map[]))
  {
    var kpar := Some(KernelParameters(Some(StoredNextPid(kmem).GetOr(1))));
    if reset then KernelMemory(kpar, Some([]), Some(map[]))
    else KernelMemory(kpar, Some(kmem.proc.GetOr([])), Some(kmem.pmem.GetOr(map[])))
  }

  /** Filling in defaults after either kind of call changes nothing more. */
  lemma ApplyKMemDefaultsIdempotent(kmem: KernelMemory, reset: bool)
    ensures ApplyKMemDefaults(ApplyKMemDefaults(kmem, reset), false) == ApplyKMemDefaults(kmem, reset)
  {
  }

  /** The pids of a list of records, in order. */
  function Pids(s: seq<KernelRecord>): (r: seq<Pid>)
    ensures |r| == |s| && forall i :: 0 <= i < |s| ==> r[i] == s[i].process.pid
  {
    seq(|s|, i requires 0 <= i < |s| => s[i].process.pid)
  }

  class Kernel {
    var processTable: Table
    var nextPid: int
    var proc: Option<seq<SerializedProcess>>
    var pmem: PMem
    const registry: Registry.ProcessRegistry<ProcessCtor>

    /** Records are stored under their own pid. */
    ghost predicate Valid()
      reads this
    {
      WellKeyed(processTable)
    }

    /** Every pid in the table is below the counter, so the next spawn is fresh. */
    ghost predicate FreshPids()
      reads this
    {
      forall q :: q in processTable ==> q < nextPid
    }

    /** The kernel memory as the rest of the game sees it. */
    function Memory(): (m: KernelMemory)
      reads this
      ensures StoredNextPid(m) == Some(nextPid) && m.proc == proc && m.pmem == pmem
    {
      KernelMemory(Some(KernelParameters(Some(nextPid))), proc, pmem)
    }

    /** The part of the state a scheduling pass changes. */
    ghost function State(): KState
      reads this
    {
      KState(processTable, pmem)
    }

    /** `new Kernel(fetchKmem)`: an empty table; a missing pid counter becomes 0. */
    constructor (kmem: KernelMemory, registry: Registry.ProcessRegistry<ProcessCtor>)
      ensures Valid() && processTable == map[]
      ensures nextPid == StoredNextPid(kmem).GetOr(0)
      ensures proc == kmem.proc && pmem == kmem.pmem && this.registry == registry
    {
      processTable := map[];
      this.registry := registry;
      proc := kmem.proc;
      pmem := kmem.pmem;
      if kmem.kpar.None? {
        nextPid := 0;
      } else if kmem.kpar.value.nextPid.None? {
        nextPid := 0;
      } else {
        nextPid := kmem.kpar.value.nextPid.value;
      }
    }

    /**
     * `getFreePid()`: the current counter, leaving it one higher. The
     * rotation branch stores 1, but the unconditional store after it
     * overwrites that, so the counter never rotates.
     */
    method GetFreePid() returns (pid: Pid)
      modifies this
      ensures pid == old(nextPid) && nextPid == old(nextPid) + 1
      ensures processTable == old(processTable) && proc == old(proc) && pmem == old(pmem)
    {
      var newPid := nextPid;
      var next := newPid + 1;
      if next >= PidMax - PidWarnLevel {
        if next >= PidMax {
          nextPid := 1;
        } else {
          nextPid := next;
        }
      }
      nextPid := next;
      pid := newPid;
    }

    /**
     * `spawnProcess(ctor, parentPid)`: take a pid, construct the process and
     * insert it with its base heat; throw, leaving the table as it was, if
     * the pid is occupied, by which time the counter has advanced.
     */
    method SpawnProcess(ctor: ProcessCtor, parentPid: Pid) returns (r: Result<Process, KernelError>)
      requires Valid()
      modifies this
      ensures Valid()
      ensures nextPid == old(nextPid) + 1 && proc == old(proc) && pmem == old(pmem)
      ensures old(nextPid) in old(processTable) ==> r == Err(DuplicatePid) && processTable == old(processTable)
      ensures old(nextPid) !in old(processTable) ==>
        r == Ok(NewProcess(ctor, old(nextPid), parentPid))
        && processTable == old(processTable)[old(nextPid) := KernelRecord(ctor.baseHeat, r.value)]
      ensures old(FreshPids()) ==> r.Ok? && FreshPids()
    {
      var pid := GetFreePid();
      var process := NewProcess(ctor, pid, parentPid);
      var record := KernelRecord(process.baseHeat, process);
      if pid in processTable {
        return Err(DuplicatePid);
      }
      processTable := processTable[pid := record];
      r := Ok(process);
    }

    /** `spawnProcessByClassName(name, parentPid)`: parent defaults to 0; an unregistered name spawns nothing. */
    method SpawnProcessByClassName(processName: string, parentPid: Option<Pid>) returns (r: Result<Process, KernelError>)
      requires Valid()
      modifies this
      ensures Valid()
      ensures processName !in registry.registry ==>
        r == Err(ClassNameNotDefined) && processTable == old(processTable) && nextPid == old(nextPid)
      ensures processName in registry.registry ==>
        var ctor := registry.registry[processName];
        nextPid == old(nextPid) + 1
        && (old(nextPid) in old(processTable) ==> r == Err(DuplicatePid) && processTable == old(processTable))
        && (old(nextPid) !in old(processTable) ==>
              r == Ok(NewProcess(ctor, old(nextPid), parentPid.GetOr(0)))
              && processTable == old(processTable)[old(nextPid) := KernelRecord(ctor.baseHeat, r.value)])
      ensures proc == old(proc) && pmem == old(pmem)
    {
      var parent := parentPid.GetOr(0);
      var processCtor := registry.Fetch(processName);
      if processCtor.None? {
        return Err(ClassNameNotDefined);
      }
      r := SpawnProcess(processCtor.value, parent);
    }

    /** `addProcess(process)`: insert under its own pid with its base heat; throw if occupied. */
    method AddProcess(process: Process) returns (r: Result<Process, KernelError>)
      requires Valid()
      modifies this
      ensures Valid()
      ensures process.pid in old(processTable) ==> r == Err(ReplacementPid) && processTable == old(processTable)
      ensures process.pid !in old(processTable) ==>
        r == Ok(process) && processTable == old(processTable)[process.pid := KernelRecord(process.baseHeat, process)]
      ensures nextPid == old(nextPid) && proc == old(proc) && pmem == old(pmem)
    {
      if process.pid in processTable {
        return Err(ReplacementPid);
      }
      processTable := processTable[process.pid := KernelRecord(process.baseHeat, process)];
      r := Ok(process);
    }

    /** `getChildProcesses(parentPid)`: the pid of every record, of any status, naming that parent. */
    method GetChildProcesses(parentPid: Pid) returns (childPids: seq<Pid>)
      requires Valid()
      ensures Distinct(childPids)
      ensures forall q :: q in childPids <==> q in processTable && processTable[q].process.parentPid == parentPid
    {
      childPids := [];
      var rest := processTable.Keys;
      while rest != {}
        invariant rest <= processTable.Keys
        invariant Distinct(childPids)
        invariant forall q :: q in childPids ==> q !in rest
        invariant forall q :: q in childPids <==> q in processTable && q !in rest && processTable[q].process.parentPid == parentPid
        decreases |rest|
      {
        ghost var some := PickOne(rest);
        var q :| q in rest;
        var record := processTable[q];
        if record.process.parentPid == parentPid {
          childPids := childPids + [record.process.pid];
        }
        rest := rest - {q};
      }
    }

    /** `getProcessById(pid)`: found only if present and running. */
    function GetProcessById(pid: Option<Pid>): (r: Option<Process>)
      reads this
      ensures r.Some? <==> pid.Some? && Live(processTable, pid.value)
      ensures r.Some? ==> r.value == processTable[pid.value].process
    {
      if pid.Some? && pid.value in processTable && processTable[pid.value].process.status.Code() >= RUN.Code()
      then Some(processTable[pid.value].process)
      else None
    }

    /** `getProcessByIdOrThrow(pid)`: throws only for an absent pid, whatever a present record's status. */
    function GetProcessByIdOrThrow(pid: Pid): (r: Result<Process, KernelError>)
      reads this
      ensures r.Ok? <==> pid in processTable
      ensures r.Ok? ==> r.value == processTable[pid].process
      ensures r.Err? ==> r.error == ProcessNotFound
    {
      if pid in processTable then Ok(processTable[pid].process) else Err(ProcessNotFound)
    }

    /** `getProcessMemory(pid)`: the stored object, or a new empty one stored first. */
    method GetProcessMemory(pid: Pid) returns (m: ProcessMemory)
      modifies this
      ensures pmem == Some(old(pmem).GetOr(map[])[pid := m])
      ensures old(pmem).Some? && pid in old(pmem).value ==> m == old(pmem).value[pid]
      ensures !(old(pmem).Some? && pid in old(pmem).value) ==> fresh(m)
      ensures processTable == old(processTable) && nextPid == old(nextPid) && proc == old(proc)
    {
      var pm: map<Pid, ProcessMemory>;
      if pmem.None? {
        pm := map[];
        pmem := Some(pm);
      } else {
        pm := pmem.value;
      }
      if pid in pm {
        m := pm[pid];
        assert pm[pid := m] == pm;
      } else {
        m := new ProcessMemory();
        pmem := Some(pm[pid := m]);
      }
    }

    /** `setProcessMemory(pid, memory)`. */
    method SetProcessMemory(pid: Pid, memory: ProcessMemory)
      modifies this
      ensures pmem == Some(old(pmem).GetOr(map[])[pid := memory])
      ensures processTable == old(processTable) && nextPid == old(nextPid) && proc == old(proc)
    {
      var pm := pmem.GetOr(map[]);
      pmem := Some(pm[pid := memory]);
    }

    /** `deleteProcessMemory(pid)`: nothing to do if the dictionary is unset. */
    method DeleteProcessMemory(pid: Pid)
      modifies this
      ensures pmem == RemoveKeys(old(pmem), {pid})
      ensures processTable == old(processTable) && nextPid == old(nextPid) && proc == old(proc)
    {
      if pmem.Some? {
        pmem := RemoveKeys(pmem, {pid});
      }
    }

    /**
     * `killProcess(pid)`: nothing for a pid `getProcessById` does not find;
     * otherwise remove it and its memory, then kill each record naming it as
     * parent. The result is exactly the kill spec.
     */
    method KillProcess(p: Pid)
      requires Valid()
      modifies this
      ensures Valid()
      ensures processTable == KillTable(old(processTable), p)
      ensures pmem == RemoveKeys(old(pmem), Doomed(old(processTable), p))
      ensures nextPid == old(nextPid) && proc == old(proc)
      decreases |processTable|
    {
      var process := GetProcessById(Some(p));
      if process.None? {
        NotLiveNothingDoomed(processTable, p);
        RemoveKeysNone(pmem);
        return;
      }
      ghost var t := processTable;
      ghost var pm := pmem;
      processTable := Without(processTable, {p});
      DeleteProcessMemory(p);
      assert t.Keys - processTable.Keys == {p};
      var childPids := GetChildProcesses(p);
      KillLoopStart(t, p, childPids);
      var i := 0;
      while i < |childPids|
        invariant KillLoop(t, p, processTable, childPids, i)
        invariant Valid()
        invariant pmem == RemoveKeys(pm, t.Keys - processTable.Keys)
        invariant nextPid == old(nextPid) && proc == old(proc)
        decreases |childPids| - i
      {
        ghost var u := processTable;
        assert u.Keys <= t.Keys - {p} by {
          forall q | q in u.Keys
            ensures q in t.Keys - {p}
          {
            assert q in u;
          }
        }
        SubsetCardinality(u.Keys, t.Keys - {p});
        KillProcess(childPids[i]);
        KillLoopNext(t, p, u, childPids, i);
        RemoveKeysTwice(pm, t.Keys - u.Keys, Doomed(u, childPids[i]));
        i := i + 1;
      }
      KillLoopEnd(t, p, processTable, childPids);
    }

    /** `loadProcessEntry(entry)`: a record for a registered class name, or none. */
    function LoadProcessEntry(entry: SerializedProcess): (r: Option<KernelRecord>)
      reads registry
      ensures r.Some? <==> entry.ex in registry.registry
      ensures r.Some? ==> r.value == Loaded(entry, registry.registry)
    {
      match registry.Fetch(entry.ex)
      case None => None
      case Some(ctor) => Some(KernelRecord(entry.he, NewProcess(ctor, entry.id, entry.pa)))
    }

    /** `loadProcessTable()`: a missing saved table becomes `[]`; the table is rebuilt from it. */
    method LoadProcessTable()
      modifies this
      ensures proc == Some(old(proc).GetOr([]))
      ensures processTable == LoadTable(proc.value, registry.registry)
      ensures Valid()
      ensures nextPid == old(nextPid) && pmem == old(pmem)
    {
      var entries: seq<SerializedProcess>;
      if proc.None? {
        entries := [];
        proc := Some(entries);
      } else {
        entries := proc.value;
      }
      processTable := map[];
      var i := 0;
      while i < |entries|
        invariant 0 <= i <= |entries|
        invariant proc == Some(entries)
        invariant processTable == LoadTable(entries[..i], registry.registry)
        invariant nextPid == old(nextPid) && pmem == old(pmem)
      {
        var entry := entries[i];
        var record := LoadProcessEntry(entry);
        if record.Some? {
          processTable := processTable[entry.id := record.value];
        }
        assert entries[..i + 1][..i] == entries[..i];
        i := i + 1;
      }
      assert entries[..|entries|] == entries;
      LoadTableWellKeyed(entries, registry.registry);
    }

    /** The loop of `saveProcessTable()`: one entry per running record, none for any other. */
    method SerializeRunning() returns (table: seq<SerializedProcess>)
      requires Valid()
      ensures DistinctIds(table)
      ensures (set e | e in table) == SavedEntries(processTable)
      ensures |table| == |SavedEntries(processTable)|
    {
      table := [];
      var rest := processTable.Keys;
      while rest != {}
        invariant rest <= processTable.Keys
        invariant DistinctIds(table)
        invariant forall i :: 0 <= i < |table| ==> table[i].id in processTable && table[i].id !in rest
        invariant forall e :: e in table <==> exists q :: q in processTable && q !in rest && processTable[q].process.status == RUN && e == Serialize(processTable[q])
        decreases |rest|
      {
        ghost var some := PickOne(rest);
        var q :| q in rest;
        var record := processTable[q];
        if record.process.status.Code() >= RUN.Code() {
          table := table + [Serialize(record)];
        }
        rest := rest - {q};
      }
      assert Distinct(table) by {
        forall i, j | 0 <= i < j < |table|
          ensures table[i] != table[j]
        {
          assert table[i].id != table[j].id;
        }
      }
      DistinctCardinality(table);
    }

    /** `saveProcessTable()`: replace the saved table with one entry per running record. */
    method SaveProcessTable()
      requires Valid()
      modifies this
      ensures proc.Some? && DistinctIds(proc.value)
      ensures (set e | e in proc.value) == SavedEntries(processTable)
      ensures |proc.value| == |SavedEntries(processTable)|
      ensures processTable == old(processTable) && nextPid == old(nextPid) && pmem == old(pmem)
    {
      var table := SerializeRunning();
      proc := Some(table);
    }

    /**
     * `tryRunProc(process)` for the process under `pid`, whose `run()` has
     * the given outcome. The memory fetched for the log of a throwing
     * process may add an entry for `pid`; apart from that entry the state is
     * the spec's.
     */
    method TryRunProc(pid: Pid, outcome: RunOutcome) returns (code: Status, ghost invoked: bool)
      requires Valid() && pid in processTable
      modifies this
      ensures Valid()
      ensures var r := TryRun(old(State()), pid, outcome);
        code == r.code && invoked == r.invoked && processTable == r.state.table
        && (outcome == Throws && r.invoked ==> RemoveKeys(pmem, {pid}) == RemoveKeys(r.state.pmem, {pid}))
        && (!(outcome == Throws && r.invoked) ==> pmem == r.state.pmem)
      ensures nextPid == old(nextPid) && proc == old(proc)
    {
      var process := processTable[pid].process;
      if GetProcessById(Some(process.parentPid)).None? {
        processTable := WithStatus(processTable, pid, EXIT);
        return TERM, false;
      }
      invoked := true;
      match outcome {
        case Completes =>
          code := RUN;
        case Throws =>
          ghost var before := pmem;
          var dying := GetProcessMemory(pid);
          RemoveKeysUpdate(before.GetOr(map[]), pid, dying);
          code := TERM;
        case SetsStatus(s) =>
          processTable := WithStatus(processTable, pid, s);
          if s.Code() < RUN.Code() {
            code := s;
          } else {
            code := RUN;
          }
      }
    }

    /** One iteration of the main loop of `runAllProcesses` for the record of `pid`. */
    method RunOne(pid: Pid, behave: Pid -> RunOutcome) returns (ghost invoked: bool)
      requires Valid()
      modifies this
      ensures Valid()
      ensures Step(old(State()), pid, behave) == StepResult(State(), invoked)
      ensures nextPid == old(nextPid) && proc == old(proc)
    {
      invoked := false;
      if pid !in processTable {
        return;
      }
      processTable := processTable[pid := processTable[pid].(heat := processTable[pid].process.baseHeat)];
      if processTable[pid].process.status.Code() < RUN.Code() {
        return;
      }
      ghost var tried := TryRun(State(), pid, behave(pid));
      var code;
      code, invoked := TryRunProc(pid, behave(pid));
      if code == TERM {
        ghost var before := pmem;
        if behave(pid) == Throws && invoked {
          LiveIsDoomed(processTable, pid);
          RemoveKeysAgree(before, tried.state.pmem, pid, Doomed(processTable, pid));
        }
        KillProcess(pid);
      }
    }

    /**
     * The main loop of `runAllProcesses(processes, maxCpu)`: run records in
     * order until a reading of the CPU used reaches `maxCpu`; `k` is the
     * index where it stopped.
     */
    method RunUntilBudget(processes: seq<KernelRecord>, maxCpu: real, used: nat -> real, behave: Pid -> RunOutcome)
      returns (k: nat, ghost ran: seq<Pid>)
      requires Valid()
      modifies this
      ensures Valid()
      ensures k == FirstOver(used, maxCpu, |processes|, 0)
      ensures RunPrefix(old(State()), Pids(processes), k, behave) == Pass(State(), ran)
      ensures nextPid == old(nextPid) && proc == old(proc)
    {
      ghost var st0 := State();
      ghost var order := Pids(processes);
      k := 0;
      ran := [];
      while k < |processes|
        invariant k <= |processes|
        invariant forall j :: 0 <= j < k ==> used(j) < maxCpu
        invariant RunPrefix(st0, order, k, behave) == Pass(State(), ran)
        invariant Valid() && nextPid == old(nextPid) && proc == old(proc)
      {
        if used(k) >= maxCpu {
          break;
        }
        var pid := processes[k].process.pid;
        assert order[k] == pid;
        ghost var invoked: bool;
        invoked := RunOne(pid, behave);
        if invoked {
          ran := ran + [pid];
        }
        k := k + 1;
      }
      FirstOverUnique(used, maxCpu, |processes|, 0, k);
    }

    /**
     * The overheat loop of `runAllProcesses`: every record from index `k` on
     * that is still in the table and running gains its base heat.
     */
    method OverheatFrom(processes: seq<KernelRecord>, k: nat)
      requires Valid() && k <= |processes|
      modifies this
      ensures Valid()
      ensures processTable == HeatRest(old(processTable), Pids(processes)[k..])
      ensures pmem == old(pmem) && nextPid == old(nextPid) && proc == old(proc)
    {
      ghost var order := Pids(processes);
      var i := k;
      while i < |processes|
        invariant k <= i <= |processes|
        invariant processTable == HeatRest(old(processTable), order[k..i])
        invariant Valid() && pmem == old(pmem) && nextPid == old(nextPid) && proc == old(proc)
      {
        var pid := processes[i].process.pid;
        if pid in processTable && processTable[pid].process.status.Code() >= RUN.Code() {
          processTable := processTable[pid := processTable[pid].(heat := processTable[pid].heat + processTable[pid].process.baseHeat)];
        }
        assert order[k..i + 1][..i - k] == order[k..i];
        i := i + 1;
      }
      assert order[k..|processes|] == order[k..];
    }

    /**
     * `runAllProcesses(processes, maxCpu)`: run records in order until a
     * reading of the CPU used reaches `maxCpu`, then give every record not
     * reached that is still running its base heat once more.
     */
    method RunAllProcesses(processes: seq<KernelRecord>, maxCpu: real, used: nat -> real, behave: Pid -> RunOutcome)
      returns (ghost ran: seq<Pid>)
      requires Valid()
      modifies this
      ensures Valid()
      ensures RunAll(old(State()), Pids(processes), used, maxCpu, behave) == Pass(State(), ran)
      ensures nextPid == old(nextPid) && proc == old(proc)
    {
      var k;
      k, ran := RunUntilBudget(processes, maxCpu, used, behave);
      OverheatFrom(processes, k);
    }

    /** The first loop of `run(maxCpu)`: every running record, each once. */
    method CollectRunning() returns (processes: seq<KernelRecord>)
      requires Valid()
      ensures Distinct(processes)
      ensures forall r :: r in processes ==> r.process.pid in processTable && processTable[r.process.pid] == r && r.process.status == RUN
      ensures forall q :: Live(processTable, q) ==> processTable[q] in processes
    {
      processes := [];
      var rest := processTable.Keys;
      while rest != {}
        invariant rest <= processTable.Keys
        invariant Distinct(processes)
        invariant forall r :: r in processes ==>
          r.process.pid in processTable && processTable[r.process.pid] == r
          && r.process.status == RUN && r.process.pid !in rest
        invariant forall q :: q in processTable && q !in rest && Live(processTable, q) ==> processTable[q] in processes
        decreases |rest|
      {
        ghost var some := PickOne(rest);
        var q :| q in rest;
        var record := processTable[q];
        if record.process.status.Code() >= RUN.Code() {
          processes := processes + [record];
        }
        rest := rest - {q};
      }
    }

    /**
     * `run(maxCpu)`: collect the running records, sort them hottest first
     * and run them. `order` is the resulting pid order.
     */
    method Run(maxCpu: real, used: nat -> real, behave: Pid -> RunOutcome) returns (ghost order: seq<Pid>, ghost ran: seq<Pid>)
      requires Valid()
      modifies this
      ensures Valid()
      ensures Distinct(order) && forall q :: q in order <==> Live(old(processTable), q)
      ensures forall i, j :: 0 <= i < j < |order| ==>
        order[i] in old(processTable) && order[j] in old(processTable)
        && old(processTable)[order[i]].heat >= old(processTable)[order[j]].heat
      ensures RunAll(old(State()), order, used, maxCpu, behave) == Pass(State(), ran)
      ensures nextPid == old(nextPid) && proc == old(proc)
    {
      var processes := CollectRunning();
      var sorted := SortByHeat(processes);
      SortedRunOrder(processTable, processes, sorted);
      order := Pids(sorted);
      ran := RunAllProcesses(sorted, maxCpu, used, behave);
    }

    /**
     * The kernel-memory part of `reboot()`: an empty table, empty saved table
     * and process memories, the pid counter kept.
     */
    method Reboot()
      modifies this
      ensures Valid()
      ensures processTable == map[] && proc == Some([]) && pmem == Some(map[]) && nextPid == old(nextPid)
    {
      processTable := map[];
      var kmem := ApplyKMemDefaults(Memory(), true);
      nextPid := StoredNextPid(kmem).value;
      proc := kmem.proc;
      pmem := kmem.pmem;
      SaveProcessTable();
      assert SavedEntries(processTable) == {};

    }
  }

  /**
   * The running records of a well-keyed table, sorted hottest first, give
   * every running pid exactly once, in order of non-increasing heat.
   */
  lemma SortedRunOrder(t: Table, processes: seq<KernelRecord>, sorted: seq<KernelRecord>)
    requires WellKeyed(t) && Distinct(processes)
    requires forall r :: r in processes ==> r.process.pid in t && t[r.process.pid] == r && r.process.status == RUN
    requires forall q :: Live(t, q) ==> t[q] in processes
    requires multiset(sorted) == multiset(processes) && HeatDescending(sorted)
    ensures var order := Pids(sorted);
      Distinct(order) && (forall q :: q in order <==> Live(t, q))
      && forall i, j :: 0 <= i < j < |order| ==> order[i] in t && order[j] in t && t[order[i]].heat >= t[order[j]].heat
  {
    DistinctPermutation(processes, sorted);
    forall r
      ensures r in sorted <==> r in processes
    {
      assert r in sorted <==> r in multiset(sorted);
      assert r in processes <==> r in multiset(processes);
    }
    var order := Pids(sorted);
    forall i | 0 <= i < |order|
      ensures order[i] in t && t[order[i]] == sorted[i] && Live(t, order[i])
    {
      assert sorted[i] in processes;
    }
    forall q | Live(t, q)
      ensures q in order
    {
      var r := t[q];
      assert r in sorted;
      var i :| 0 <= i < |sorted| && sorted[i] == r;
      assert order[i] == q;
    }
  }
}
