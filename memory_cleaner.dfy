/**
 * `MemoryCleanerProcess` (src/processes/MemoryCleanerProcess.ts): a kernel
 * process of base heat 2 whose `run()` deletes every entry of
 * `Memory.creeps` that has no keys.
 */
module MemoryCleaner {
  import opened Base
  import opened GameMemory
  import opened ProcessTypes
  import opened KernelSpec

  /** The creep entries with at least one key, unchanged. */
  function NonEmpty(creeps: map<string, CreepMemory>): map<string, CreepMemory> {
    map name | name in creeps && |creeps[name]| > 0 :: creeps[name]
  }

  /** After cleaning, no entry without keys is left. */
  lemma NoEmptyEntryLeft(creeps: map<string, CreepMemory>)
    ensures forall name :: name in NonEmpty(creeps) ==> |NonEmpty(creeps)[name]| > 0
  {
  }

  /** Exactly the entries with a key are kept, and each is untouched. */
  lemma NonEmptyKept(creeps: map<string, CreepMemory>, name: string)
    requires name in creeps
    ensures name in NonEmpty(creeps) <==> |creeps[name]| > 0
    ensures name in NonEmpty(creeps) ==> NonEmpty(creeps)[name] == creeps[name]
  {
  }

  /** Cleaning twice is cleaning once. */
  lemma NonEmptyIdempotent(creeps: map<string, CreepMemory>)
    ensures NonEmpty(NonEmpty(creeps)) == NonEmpty(creeps)
  {
  }

  /** The loop of `cleanCreepMemory` over the names of `start`, on a local copy of the dictionary. */
  method CleanLoop(start: map<string, CreepMemory>) returns (creeps: map<string, CreepMemory>)
    ensures creeps == NonEmpty(start)
  {
    creeps := start;
    var todo := start.Keys;
    while todo != {}
      invariant todo <= start.Keys
      invariant forall name :: name in creeps <==> name in start && (name in todo || |start[name]| > 0)
      invariant forall name :: name in creeps ==> creeps[name] == start[name]
      decreases |todo|
    {
      var name :| name in todo;
      if |creeps[name]| == 0 {
        creeps := creeps - {name};
      }
      todo := todo - {name};
    }
  }

  /**
   * `run()`, that is `cleanCreepMemory()`: with `Memory.creeps` undefined
   * nothing happens; otherwise the entries without keys are deleted. Every
   * name is visited once and only the visited entry is deleted, so deleting
   * from a copy stored back at the end is the same as deleting in place.
   */
  method Run(memory: Memory)
    modifies memory
    ensures old(memory.creeps).None? ==> memory.creeps == None
    ensures old(memory.creeps).Some? ==> memory.creeps == Some(NonEmpty(old(memory.creeps).value))
    ensures memory.guid == old(memory.guid) && memory.flags == old(memory.flags) && memory.rooms == old(memory.rooms)
    ensures memory.spawns == old(memory.spawns) && memory.modules == old(memory.modules)
  {
    if memory.creeps.Some? {
      var kept := CleanLoop(memory.creeps.value);
      memory.creeps := Some(kept);
    }
  }

  /**
   * A running cleaner among the processes the kernel's main loop did not
   * reach before the CPU budget ran out gains 2 heat in the overheat phase.
   */
  lemma {:induction false} SkippedCleanerGainsTwo(t: Table, rest: seq<Pid>, pid: Pid, parentPid: Pid, heat: int)
    requires Distinct(rest) && pid in rest
    requires pid in t && t[pid] == KernelRecord(heat, NewProcess(MemoryCleanerClass, pid, parentPid))
    ensures pid in HeatRest(t, rest) && HeatRest(t, rest)[pid].heat == heat + 2
    ensures HeatRest(t, rest)[pid].process == t[pid].process
  {
    HeatRestEffect(t, rest);
  }
}
