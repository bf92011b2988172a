/**
 * The earlier kernel of src/kernel/kernel.ts: a process dictionary, three
 * priority queues drained from the back, a sleep state woken by the game
 * clock, and the `Memory.pidCounter`, `Memory.processMemory` and
 * `Memory.processTable` slots of game memory. Processes are identified by
 * pid: a queued process is the record stored under its pid.
 */
module LegacyKernel {
  import opened Base

  type Pid = int

  /** ProcessStatus of this kernel: DEAD = -1, ALIVE = 0, SLEEP = 1. */
  datatype LStatus = DEAD | ALIVE | SLEEP

  /** ProcessPriority: HIGH = 1, MID = 2, LOW = 3. */
  datatype Priority = HIGH | MID | LOW

  /** `sleepInfo`: the tick a sleep began and how many ticks it lasts (-1: forever). */
  datatype SleepInfo = SleepInfo(start: int, duration: int)

  /** The fields of a process object the kernel reads and writes. */
  datatype LProcess = LProcess(pid: Pid, parentPid: Pid, className: string, status: LStatus,
                               priority: Priority, sleepInfo: Option<SleepInfo>)

  /** The exception a property read of `undefined` raises. */
  datatype LegacyError = TypeError

  /** `Memory.processMemory`: absent, or a dictionary whose slots may hold `undefined`. */
  type MemorySlots = Option<map<Pid, Option<ProcessMemory>>>

  /** What `killProcess`, the queues and the wake rule act on. */
  datatype LState = LState(table: map<Pid, LProcess>, memory: MemorySlots)

  /** Every process is stored under its own pid. */
  ghost predicate WellKeyed(t: map<Pid, LProcess>) {
    forall q :: q in t ==> t[q].pid == q
  }

  /** The result of `killProcess(pid)` on the state `st`. */
  datatype KillOutcome = KillOutcome(state: LState, result: Result<int, LegacyError>)

  /**
   * `killProcess(pid)`: refuse pid 0 with -1; throw reading an absent pid;
   * otherwise mark it DEAD and clear its memory slot (throwing, after the
   * mark, if there is no memory dictionary). No child is ever killed.
   */
  function Kill(st: LState, pid: Pid): (r: KillOutcome)
    ensures pid == 0 ==> r == KillOutcome(st, Ok(-1))
    ensures pid != 0 && pid !in st.table ==> r == KillOutcome(st, Err(TypeError))
    ensures pid != 0 && pid in st.table ==>
      r.state.table == st.table[pid := st.table[pid].(status := DEAD)]
      && (st.memory.None? ==> r.state.memory == None && r.result == Err(TypeError))
      && (st.memory.Some? ==> r.state.memory == Some(st.memory.value[pid := None]) && r.result == Ok(pid))
  {
    if pid == 0 then KillOutcome(st, Ok(-1))
    else if pid !in st.table then KillOutcome(st, Err(TypeError))
    else
      var t := st.table[pid := st.table[pid].(status := DEAD)];
      if st.memory.None? then KillOutcome(LState(t, None), Err(TypeError))
      else KillOutcome(LState(t, Some(st.memory.value[pid := None])), Ok(pid))
  }

  /** Killing changes no pid's record except the killed one, and no other memory slot. */
  lemma KillOnlyTarget(st: LState, pid: Pid, q: Pid)
    requires q != pid
    ensures q in Kill(st, pid).state.table <==> q in st.table
    ensures q in st.table ==> Kill(st, pid).state.table[q] == st.table[q]
    ensures st.memory.Some? && q in st.memory.value ==>
      Kill(st, pid).state.memory.Some? && q in Kill(st, pid).state.memory.value
      && Kill(st, pid).state.memory.value[q] == st.memory.value[q]
  {
  }

  /**
   * The wake rule of `runOneQueue`: a sleeping process whose sleep has run
   * out (start + duration before the current tick, duration not -1) becomes
   * ALIVE with its sleep cleared. Reading the sleep of a sleeping process
   * that has none throws.
   */
  function Wake(p: LProcess, time: int): (r: Result<LProcess, LegacyError>)
    ensures r.Err? <==> p.status == SLEEP && p.sleepInfo.None?
    ensures r.Ok? ==> r.value.pid == p.pid && r.value.parentPid == p.parentPid
    ensures r.Ok? ==> (r.value.status == ALIVE <==>
      p.status == ALIVE
      || (p.status == SLEEP && p.sleepInfo.value.start + p.sleepInfo.value.duration < time
          && p.sleepInfo.value.duration != -1))
    ensures r.Ok? && r.value.status != p.status ==> r.value == p.(status := ALIVE, sleepInfo := None)
  {
    if p.status == SLEEP then
      if p.sleepInfo.None? then Err(TypeError)
      else if p.sleepInfo.value.start + p.sleepInfo.value.duration < time && p.sleepInfo.value.duration != -1
      then Ok(p.(status := ALIVE, sleepInfo := None))
      else Ok(p)
    else Ok(p)
  }

  /** `sleepProcess(p, ticks)` at tick `now`. */
  function Sleep(p: LProcess, ticks: int, now: int): (q: LProcess)
    ensures q.status == SLEEP && q.sleepInfo == Some(SleepInfo(now, ticks))
    ensures q.(status := p.status, sleepInfo := p.sleepInfo) == p
  {
    p.(status := SLEEP, sleepInfo := Some(SleepInfo(now, ticks)))
  }

  /** A process put to sleep at `now` for `ticks` wakes at tick `time` exactly when the sleep has run out and is not forever. */
  lemma SleepThenWake(p: LProcess, ticks: int, now: int, time: int)
    ensures Wake(Sleep(p, ticks, now), time).Ok?
    ensures Wake(Sleep(p, ticks, now), time).value.status == ALIVE <==> now + ticks < time && ticks != -1
  {
  }

  /** A forever-sleeping process never wakes. */
  lemma SleepForeverNeverWakes(p: LProcess, now: int, time: int)
    ensures Wake(Sleep(p, -1, now), time) == Ok(Sleep(p, -1, now))
  {
  }

  /** The state after one popped process and whether its `run()` was called. */
  datatype StepOut = StepOut(state: LState, ran: bool)

  /**
   * One iteration of the inner loop of `runOneQueue` for the queued process
   * `pid`: kill it if its parent is not in the table, wake it if its sleep
   * has run out, run it if it is ALIVE. A throw anywhere in the block ends
   * the iteration; `run()` itself is abstract, and whether it returns or
   * throws, the loop goes on with the next process.
   */
  function Step(st: LState, pid: Pid, time: int): (r: StepOut)
    requires WellKeyed(st.table) && pid in st.table
    ensures WellKeyed(r.state.table)
    ensures r.state.table.Keys == st.table.Keys
  {
    var p := st.table[pid];
    var k := if p.parentPid !in st.table then Kill(st, p.pid) else KillOutcome(st, Ok(0));
    if k.result.Err? then StepOut(k.state, false)
    else
      var st1 := k.state;
      if pid !in st1.table then StepOut(st1, false)
      else
        match Wake(st1.table[pid], time)
        case Err(_) => StepOut(st1, false)
        case Ok(q) => StepOut(LState(st1.table[pid := q], st1.memory), q.status == ALIVE)
  }

  /**
   * A step changes only the stepped process, keeps its identity, and runs it
   * only if it ends ALIVE.
   */
  lemma StepEffect(st: LState, pid: Pid, time: int)
    requires WellKeyed(st.table) && pid in st.table
    ensures var r := Step(st, pid, time);
      (forall q :: q in st.table && q != pid ==> r.state.table[q] == st.table[q])
      && r.state.table[pid].pid == st.table[pid].pid && r.state.table[pid].parentPid == st.table[pid].parentPid
      && (r.ran ==> r.state.table[pid].status == ALIVE)
  {
  }

  /** A process whose parent is gone is marked DEAD and not run, unless it is pid 0. */
  lemma OrphanKilled(st: LState, pid: Pid, time: int)
    requires WellKeyed(st.table) && pid in st.table && pid != 0
    requires st.table[pid].parentPid !in st.table
    ensures Step(st, pid, time).state.table[pid].status == DEAD
    ensures !Step(st, pid, time).ran
  {
  }

  /**
   * A process whose parent is present runs exactly when it is ALIVE or its
   * sleep has run out; a DEAD one never runs.
   */
  lemma RunsIffAwake(st: LState, pid: Pid, time: int)
    requires WellKeyed(st.table) && pid in st.table && st.table[pid].parentPid in st.table
    ensures var p := st.table[pid];
      Step(st, pid, time).ran <==>
        p.status == ALIVE
        || (p.status == SLEEP && p.sleepInfo.Some?
            && p.sleepInfo.value.start + p.sleepInfo.value.duration < time
            && p.sleepInfo.value.duration != -1)
  {
  }

  /** The popped process still to be stepped, as a queue of at most one. */
  function Pending(p: Option<Pid>): (q: seq<Pid>)
    ensures p.Some? ==> q == [p.value]
    ensures p.None? ==> q == []
  {
    if p.Some? then [p.value] else []
  }

  /** A pass over one queue: the final state and the pids run, in the order run. */
  datatype QueuePass = QueuePass(state: LState, ran: seq<Pid>)

  /** `runOneQueue(queue)`: pop and step until the queue is empty, last element first. */
  function RunQueue(st: LState, q: seq<Pid>, time: int): (r: QueuePass)
    requires WellKeyed(st.table) && forall i :: 0 <= i < |q| ==> q[i] in st.table
    ensures WellKeyed(r.state.table)
    ensures r.state.table.Keys == st.table.Keys
    decreases |q|
  {
    if q == [] then QueuePass(st, [])
    else
      var last := q[|q| - 1];
      var s := Step(st, last, time);
      var rest := RunQueue(s.state, q[..|q| - 1], time);
      QueuePass(rest.state, (if s.ran then [last] else []) + rest.ran)
  }

  /** A queue pass over `q + [x]` steps `x` first and then passes over `q`. */
  lemma RunQueueSnoc(st: LState, q: seq<Pid>, x: Pid, time: int)
    requires WellKeyed(st.table) && x in st.table && forall i :: 0 <= i < |q| ==> q[i] in st.table
    ensures var s := Step(st, x, time);
      var r := RunQueue(s.state, q, time);
      RunQueue(st, q + [x], time) == QueuePass(r.state, (if s.ran then [x] else []) + r.ran)
  {
    assert (q + [x])[..|q|] == q;
  }

  /**
   * The inner loop of `runOneQueue` so far: from state `st`, the pass over
   * the pids still due, `todo`, completes the pass `total`, with `ran`
   * the pids already run.
   */
  ghost predicate Draining(st: LState, todo: seq<Pid>, ran: seq<Pid>, total: QueuePass, time: int) {
    WellKeyed(st.table) && (forall i :: 0 <= i < |todo| ==> todo[i] in st.table)
    && RunQueue(st, todo, time).state == total.state
    && ran + RunQueue(st, todo, time).ran == total.ran
  }

  /** The popped pid is one still due, so it is in the table. */
  lemma DrainedPidInTable(st: LState, q: seq<Pid>, x: Pid, ran: seq<Pid>, total: QueuePass, time: int)
    requires Draining(st, q + [x], ran, total, time)
    ensures x in st.table
  {
    assert (q + [x])[|q|] == x;
  }

  /**
   * One round of the inner loop: after stepping the popped `x`, the pass
   * over the rest of the queue completes the pass that was due, with `x`
   * recorded if it ran.
   */
  lemma DrainStep(s0: LState, s1: LState, q: seq<Pid>, x: Pid, time: int, stepped: bool, ran0: seq<Pid>, total: QueuePass)
    requires Draining(s0, q + [x], ran0, total, time)
    requires Step(s0, x, time) == StepOut(s1, stepped)
    ensures Draining(s1, q, ran0 + (if stepped then [x] else []), total, time)
  {
    assert (q + [x])[|q|] == x;
    assert forall i :: 0 <= i < |q| ==> q[i] == (q + [x])[i];
    RunQueueSnoc(s0, q, x, time);
    ConcatAssoc(ran0, if stepped then [x] else [], RunQueue(s1, q, time).ran);
  }

  /** A non-empty sequence is its front followed by its last element. */
  lemma PopSplit<T>(q: seq<T>)
    requires q != []
    ensures q == q[..|q| - 1] + [q[|q| - 1]]
  {
  }

  lemma ConcatAssoc<T>(a: seq<T>, b: seq<T>, c: seq<T>)
    ensures (a + b) + c == a + (b + c)
  {
  }

  /** `s` read from the back. */
  function Reverse<T>(s: seq<T>): (r: seq<T>)
    ensures |r| == |s| && forall i :: 0 <= i < |s| ==> r[i] == s[|s| - 1 - i]
  {
    if s == [] then [] else [s[|s| - 1]] + Reverse(s[..|s| - 1])
  }

  /** A process that is ALIVE with its parent present. */
  ghost predicate Runnable(t: map<Pid, LProcess>, pid: Pid) {
    pid in t && t[pid].status == ALIVE && t[pid].parentPid in t
  }

  /**
   * When every queued process is ALIVE with its parent present, each is run
   * once, from the back of the queue to its front, and nothing in the table
   * or memory changes: a throwing `run()` does not stop the queue.
   */
  lemma {:induction false} RunnableQueueRunsReversed(st: LState, q: seq<Pid>, time: int)
    requires WellKeyed(st.table)
    requires forall i :: 0 <= i < |q| ==> q[i] in st.table && Runnable(st.table, q[i])
    ensures RunQueue(st, q, time) == QueuePass(st, Reverse(q))
    decreases |q|
  {
    if q != [] {
      var last := q[|q| - 1];
      var p := st.table[last];
      assert Step(st, last, time) == StepOut(st, true) by {
        assert st.table[last := p] == st.table;
      }
      RunnableQueueRunsReversed(st, q[..|q| - 1], time);
    }
  }

  /** Every process run by a queue pass was one of the queued ones. */
  lemma {:induction false} RunQueueRanQueued(st: LState, q: seq<Pid>, time: int)
    requires WellKeyed(st.table) && forall i :: 0 <= i < |q| ==> q[i] in st.table
    ensures forall x :: x in RunQueue(st, q, time).ran ==> x in q
    decreases |q|
  {
    if q != [] {
      var last := q[|q| - 1];
      var s := Step(st, last, time);
      RunQueueRanQueued(s.state, q[..|q| - 1], time);
      forall x | x in RunQueue(s.state, q[..|q| - 1], time).ran
        ensures x in q
      {
        assert x in q[..|q| - 1];
      }
    }
  }

  /**
   * An entry of `Memory.processTable`: pid, class path, priority and sleep.
   * The parent slot reads `p.parentPID`, which is always undefined.
   */
  datatype StoredEntry = StoredEntry(pid: Pid, classPath: string, priority: Priority, sleepInfo: Option<SleepInfo>)

  /** The processes of `t` that are not DEAD. */
  predicate HasAlive(t: map<Pid, LProcess>) {
    exists q :: q in t && t[q].status != DEAD
  }

  class LegacyKernel {
    var processTable: map<Pid, LProcess>
    var highQueue: seq<Pid>
    var midQueue: seq<Pid>
    var lowQueue: seq<Pid>
    /** `Memory.pidCounter`, `Memory.processMemory`, `Memory.processTable`. */
    var pidCounter: Option<int>
    var memory: MemorySlots
    var stored: Option<seq<StoredEntry>>

    /** Records are stored under their own pid and every queued pid has a record. */
    ghost predicate Valid()
      reads this
    {
      WellKeyed(processTable)
      && (forall i :: 0 <= i < |highQueue| ==> highQueue[i] in processTable)
      && (forall i :: 0 <= i < |midQueue| ==> midQueue[i] in processTable)
      && (forall i :: 0 <= i < |lowQueue| ==> lowQueue[i] in processTable)
    }

    ghost function State(): LState
      reads this
    {
      LState(processTable, memory)
    }

    function Queue(pr: Priority): seq<Pid>
      reads this
    {
      match pr
      case HIGH => highQueue
      case MID => midQueue
      case LOW => lowQueue
    }

    /** Every pid of the chosen queue has a record. */
    lemma QueueInTable(pr: Priority)
      requires Valid()
      ensures forall i :: 0 <= i < |Queue(pr)| ==> Queue(pr)[i] in processTable
    {
    }

    /** A kernel with empty table and queues over the given game memory. */
    constructor (pidCounter: Option<int>, memory: MemorySlots, stored: Option<seq<StoredEntry>>)
      ensures Valid() && processTable == map[] && highQueue == [] && midQueue == [] && lowQueue == []
      ensures this.pidCounter == pidCounter && this.memory == memory && this.stored == stored
    {
      processTable := map[];
      highQueue, midQueue, lowQueue := [], [], [];
      this.pidCounter := pidCounter;
      this.memory := memory;
      this.stored := stored;
    }

    /** `reboot()`: empty queues and an empty table. */
    method Reboot()
      modifies this
      ensures Valid()
      ensures processTable == map[] && highQueue == [] && midQueue == [] && lowQueue == []
      ensures pidCounter == old(pidCounter) && memory == old(memory) && stored == old(stored)
    {
      highQueue := [];
      midQueue := [];
      lowQueue := [];
      processTable := map[];
    }

    /** `garbageCollection()`: keep exactly the memory slots of pids in the table. */
    method GarbageCollection()
      requires Valid()
      modifies this
      ensures Valid()
      ensures memory.Some? && memory.value.Keys == old(memory).GetOr(map[]).Keys * processTable.Keys
      ensures forall q :: q in memory.value ==> memory.value[q] == old(memory).value[q]
      ensures processTable == old(processTable) && pidCounter == old(pidCounter) && stored == old(stored)
      ensures Queue(HIGH) == old(Queue(HIGH)) && Queue(MID) == old(Queue(MID)) && Queue(LOW) == old(Queue(LOW))
    {
      var m := memory.GetOr(map[]);
      memory := Some(map k | k in m && k in processTable :: m[k]);
    }

    /** `getProcessById(pid)`. */
    function GetProcessById(pid: Pid): (r: Option<LProcess>)
      reads this
      ensures r.Some? <==> pid in processTable
      ensures r.Some? ==> r.value == processTable[pid]
    {
      if pid in processTable then Some(processTable[pid]) else None
    }

    /**
     * `getFreePid()`: from the stored counter (0 when unset) probe upwards
     * to the first pid with no record, and store it as the counter.
     */
    method GetFreePid() returns (pid: Pid)
      modifies this
      ensures pid !in processTable && pid >= old(pidCounter).GetOr(0)
      ensures forall q :: old(pidCounter).GetOr(0) <= q < pid ==> q in processTable
      ensures pidCounter == Some(pid)
      ensures processTable == old(processTable) && memory == old(memory) && stored == old(stored)
      ensures Queue(HIGH) == old(Queue(HIGH)) && Queue(MID) == old(Queue(MID)) && Queue(LOW) == old(Queue(LOW))
    {
      var c := pidCounter.GetOr(0);
      pidCounter := Some(c);
      while GetProcessById(pidCounter.value).Some?
        invariant pidCounter.Some? && pidCounter.value >= c
        invariant forall q :: c <= q < pidCounter.value ==> q in processTable
        invariant processTable == old(processTable) && memory == old(memory) && stored == old(stored)
        invariant highQueue == old(highQueue) && midQueue == old(midQueue) && lowQueue == old(lowQueue)
        decreases |set q | q in processTable && q >= pidCounter.value|
      {
        ghost var above := set q | q in processTable && q >= pidCounter.value;
        pidCounter := Some(pidCounter.value + 1);
        ghost var next := set q | q in processTable && q >= pidCounter.value;
        assert next < above by {
          assert pidCounter.value - 1 in above && pidCounter.value - 1 !in next;
        }
        ProperSubsetCardinality(next, above);
      }
      pid := pidCounter.value;
    }

    /** `getProcessMemory(pid)`: create the dictionary and the slot if missing, and return the slot. */
    method GetProcessMemory(pid: Pid) returns (m: ProcessMemory)
      modifies this
      ensures memory.Some? && pid in memory.value && memory.value[pid] == Some(m)
      ensures old(memory).Some? && pid in old(memory).value && old(memory).value[pid].Some? ==>
        m == old(memory).value[pid].value && memory == old(memory)
      ensures !(old(memory).Some? && pid in old(memory).value && old(memory).value[pid].Some?) ==> fresh(m)
      ensures memory.value == old(memory).GetOr(map[])[pid := Some(m)]
      ensures processTable == old(processTable) && pidCounter == old(pidCounter) && stored == old(stored)
      ensures Queue(HIGH) == old(Queue(HIGH)) && Queue(MID) == old(Queue(MID)) && Queue(LOW) == old(Queue(LOW))
    {
      var slots := memory.GetOr(map[]);
      if pid in slots && slots[pid].Some? {
        m := slots[pid].value;
        assert slots[pid := Some(m)] == slots;
      } else {
        m := new ProcessMemory();
      }
      memory := Some(slots[pid := Some(m)]);
    }

    /**
     * `addProcess(p, priority)`: take a free pid, store the process under it
     * with the priority, give it a new empty memory slot and mark it ALIVE.
     * Without a memory dictionary the slot write throws after the process
     * has been stored.
     */
    method AddProcess(p: LProcess, priority: Option<Priority>) returns (r: Result<LProcess, LegacyError>)
      requires Valid()
      modifies this
      ensures Valid()
      ensures pidCounter.Some?
      ensures var pid := pidCounter.value;
        pid !in old(processTable) && pid >= old(pidCounter).GetOr(0)
        && (forall q :: old(pidCounter).GetOr(0) <= q < pid ==> q in old(processTable))
        && (old(memory).None? ==>
              r == Err(TypeError) && memory == None
              && processTable == old(processTable)[pid := p.(pid := pid, priority := priority.GetOr(LOW))])
        && (old(memory).Some? ==>
              r == Ok(p.(pid := pid, priority := priority.GetOr(LOW), status := ALIVE))
              && processTable == old(processTable)[pid := r.value]
              && memory.Some? && memory.value.Keys == old(memory).value.Keys + {pid}
              && memory.value[pid].Some? && fresh(memory.value[pid].value)
              && forall q :: q in old(memory).value && q != pid ==> memory.value[q] == old(memory).value[q])
      ensures stored == old(stored)
      ensures Queue(HIGH) == old(Queue(HIGH)) && Queue(MID) == old(Queue(MID)) && Queue(LOW) == old(Queue(LOW))
    {
      var pid := GetFreePid();
      var q := p.(pid := pid, priority := priority.GetOr(LOW));
      processTable := processTable[pid := q];
      if memory.None? {
        return Err(TypeError);
      }
      var empty := new ProcessMemory();
      memory := Some(memory.value[pid := Some(empty)]);
      var m := GetProcessMemory(pid);
      processTable := processTable[pid := processTable[pid].(status := ALIVE)];
      r := Ok(processTable[pid]);
    }

    /**
     * `killProcess(pid)`. The loop meant to kill the children reads the
     * killed process itself, which is DEAD by then, so it never recurses.
     */
    method KillProcess(pid: Pid) returns (r: Result<int, LegacyError>)
      requires Valid()
      modifies this
      ensures Valid()
      ensures Kill(old(State()), pid) == KillOutcome(State(), r)
      ensures pidCounter == old(pidCounter) && stored == old(stored)
      ensures Queue(HIGH) == old(Queue(HIGH)) && Queue(MID) == old(Queue(MID)) && Queue(LOW) == old(Queue(LOW))
    {
      if pid == 0 {
        return Ok(-1);
      }
      if pid !in processTable {
        return Err(TypeError);
      }
      processTable := processTable[pid := processTable[pid].(status := DEAD)];
      if memory.None? {
        return Err(TypeError);
      }
      memory := Some(memory.value[pid := None]);
      var others := processTable.Keys;
      while others != {}
        invariant others <= processTable.Keys
        invariant pid in processTable && processTable[pid].status == DEAD
        invariant Kill(old(State()), pid) == KillOutcome(State(), Ok(pid))
        invariant Valid() && pidCounter == old(pidCounter) && stored == old(stored)
        invariant highQueue == old(highQueue) && midQueue == old(midQueue) && lowQueue == old(lowQueue)
        decreases |others|
      {
        ghost var some := PickOne(others);
        var otherPid :| otherPid in others;
        var process := processTable[pid];
        if process.parentPid == otherPid && process.status != DEAD {
          assert false;
        }
        others := others - {otherPid};
      }
      r := Ok(pid);
    }

    /** `sleepProcess(p, ticks)` at tick `now`, for the process stored under `pid`. */
    method SleepProcess(pid: Pid, ticks: int, now: int)
      requires Valid() && pid in processTable
      modifies this
      ensures Valid()
      ensures processTable == old(processTable)[pid := Sleep(old(processTable)[pid], ticks, now)]
      ensures memory == old(memory) && pidCounter == old(pidCounter) && stored == old(stored)
      ensures Queue(HIGH) == old(Queue(HIGH)) && Queue(MID) == old(Queue(MID)) && Queue(LOW) == old(Queue(LOW))
    {
      processTable := processTable[pid := Sleep(processTable[pid], ticks, now)];
    }

    /** `_.filter(_.values(processTable), p => p.status !== DEAD)`: the pids of the processes not DEAD, once each. */
    method AliveProcesses() returns (alive: seq<Pid>)
      requires Valid()
      ensures Distinct(alive)
      ensures forall q :: q in alive <==> q in processTable && processTable[q].status != DEAD
    {
      alive := [];
      var rest := processTable.Keys;
      while rest != {}
        invariant rest <= processTable.Keys
        invariant Distinct(alive)
        invariant forall q :: q in alive <==> q in processTable && q !in rest && processTable[q].status != DEAD
        decreases |rest|
      {
        ghost var some := PickOne(rest);
        var q :| q in rest;
        if processTable[q].status != DEAD {
          alive := alive + [q];
        }
        rest := rest - {q};
      }
    }

    /**
     * `storeProcessTable()`. The entry of each process not DEAD calls
     * `p.classPath()`, which no process class defines, so the first such
     * process throws a TypeError before `Memory.processTable` is assigned.
     * Only a table whose processes are all DEAD is stored, as `[]`.
     */
    method StoreProcessTable() returns (r: Result<(), LegacyError>)
      requires Valid()
      modifies this
      ensures Valid()
      ensures r.Err? <==> HasAlive(processTable)
      ensures r.Err? ==> r.error == TypeError && stored == old(stored)
      ensures r.Ok? ==> stored == Some([])
      ensures processTable == old(processTable) && memory == old(memory) && pidCounter == old(pidCounter)
      ensures Queue(HIGH) == old(Queue(HIGH)) && Queue(MID) == old(Queue(MID)) && Queue(LOW) == old(Queue(LOW))
    {
      var alive := AliveProcesses();
      if |alive| > 0 {
        var q := alive[0];
        assert q in alive;
        assert q in processTable && processTable[q].status != DEAD;
        return Err(TypeError);
      }
      assert forall q :: q !in alive;
      stored := Some([]);
      r := Ok(());
    }

    /** The body of the inner loop of `runOneQueue` for one popped pid. */
    method StepProcess(pid: Pid, time: int) returns (ghost ran: bool)
      requires Valid() && pid in processTable
      modifies this
      ensures Valid()
      ensures Step(old(State()), pid, time) == StepOut(State(), ran)
      ensures pidCounter == old(pidCounter) && stored == old(stored)
      ensures Queue(HIGH) == old(Queue(HIGH)) && Queue(MID) == old(Queue(MID)) && Queue(LOW) == old(Queue(LOW))
    {
      var process := processTable[pid];
      ran := false;
      if GetProcessById(process.parentPid).None? {
        var killed := KillProcess(process.pid);
        if killed.Err? {
          return;
        }
      }
      var woken := Wake(processTable[pid], time);
      if woken.Err? {
        return;
      }
      processTable := processTable[pid := woken.value];
      if processTable[pid].status == ALIVE {
        ran := true;
      }
    }

    /** Empty the chosen queue. */
    method ClearQueue(pr: Priority)
      requires Valid()
      modifies this
      ensures Valid() && Queue(pr) == []
      ensures forall o :: o != pr ==> Queue(o) == old(Queue(o))
      ensures processTable == old(processTable) && memory == old(memory)
      ensures pidCounter == old(pidCounter) && stored == old(stored)
    {
      match pr
      case HIGH => highQueue := [];
      case MID => midQueue := [];
      case LOW => lowQueue := [];
    }

    /**
     * The inner loop of `runOneQueue`: with `first` popped off `queue`, step
     * it, pop the next, until a pop finds the queue empty.
     */
    method DrainPopped(queue0: seq<Pid>, first: Option<Pid>, time: int) returns (ghost ran: seq<Pid>)
      requires Valid() && forall i :: 0 <= i < |queue0| ==> queue0[i] in processTable
      requires (first.Some? ==> first.value in processTable) && (first.None? ==> queue0 == [])
      modifies this
      ensures Valid()
      ensures RunQueue(old(State()), queue0 + Pending(first), time) == QueuePass(State(), ran)
      ensures highQueue == old(highQueue) && midQueue == old(midQueue) && lowQueue == old(lowQueue)
      ensures pidCounter == old(pidCounter) && stored == old(stored)
    {
      var queue := queue0;
      var process := first;
      ghost var todo := queue0 + Pending(first);
      ghost var total := RunQueue(State(), todo, time);
      ran := [];
      while process.Some?
        invariant Valid()
        invariant Draining(State(), todo, ran, total, time)
        invariant process.Some? ==> todo == queue + [process.value]
        invariant process.None? ==> todo == []
        invariant highQueue == old(highQueue) && midQueue == old(midQueue) && lowQueue == old(lowQueue)
        invariant pidCounter == old(pidCounter) && stored == old(stored)
        decreases |todo|
      {
        var pid := process.value;
        ghost var s0 := State();
        ghost var ran0 := ran;
        DrainedPidInTable(s0, queue, pid, ran0, total, time);
        ghost var stepped := StepProcess(pid, time);
        DrainStep(s0, State(), queue, pid, time, stepped, ran0, total);
        ran := ran + if stepped then [pid] else [];
        todo := queue;
        if |queue| > 0 {
          PopSplit(queue);
          process := Some(queue[|queue| - 1]);
          queue := queue[..|queue| - 1];
        } else {
          process := None;
        }
      }
    }

    /**
     * `runOneQueue(queue)`: pop processes from the back until the queue is
     * empty, stepping each one; the inner loop already empties it, so the
     * outer one ends after one round. The pops are made on a copy of the
     * queue, which is emptied at the end; nothing reads it in between.
     */
    method RunOneQueue(pr: Priority, time: int) returns (ghost ran: seq<Pid>)
      requires Valid()
      modifies this
      ensures Valid()
      ensures Queue(pr) == []
      ensures RunQueue(old(State()), old(Queue(pr)), time) == QueuePass(State(), ran)
      ensures forall o :: o != pr ==> Queue(o) == old(Queue(o))
      ensures pidCounter == old(pidCounter) && stored == old(stored)
    {
      QueueInTable(pr);
      var queue := Queue(pr);
      ghost var total := RunQueue(State(), queue, time);
      ran := [];
      while |queue| > 0
        invariant Valid() && forall i :: 0 <= i < |queue| ==> queue[i] in processTable
        invariant RunQueue(State(), queue, time).state == total.state
        invariant ran + RunQueue(State(), queue, time).ran == total.ran
        invariant highQueue == old(highQueue) && midQueue == old(midQueue) && lowQueue == old(lowQueue)
        invariant pidCounter == old(pidCounter) && stored == old(stored)
      {
        var process: Option<Pid> := Some(queue[|queue| - 1]);
        PopSplit(queue);
        queue := queue[..|queue| - 1];
        ghost var rest := queue + Pending(process);
        ghost var ran0 := ran;
        ghost var drained := DrainPopped(queue, process, time);
        ran := ran + drained;
        queue := [];
        assert RunQueue(State(), queue, time) == QueuePass(State(), []);
        ConcatAssoc(ran0, drained, []);
      }
      ClearQueue(pr);
    }

    /** `run()`: drain the high, then the mid, then the low queue. */
    method Run(time: int) returns (ghost ran: seq<Pid>)
      requires Valid()
      modifies this
      ensures Valid()
      ensures highQueue == [] && midQueue == [] && lowQueue == []
      ensures var h := RunQueue(old(State()), old(highQueue), time);
        var m := RunQueue(h.state, old(midQueue), time);
        var l := RunQueue(m.state, old(lowQueue), time);
        State() == l.state && ran == h.ran + m.ran + l.ran
      ensures pidCounter == old(pidCounter) && stored == old(stored)
    {
      var h := RunOneQueue(HIGH, time);
      var m := RunOneQueue(MID, time);
      var l := RunOneQueue(LOW, time);
      ran := h + m + l;
    }
  }
}
