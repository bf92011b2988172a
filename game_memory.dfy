/**
 * The global `Memory` object of the game as the game layer uses it: the
 * JavaScript values stored in it, the defaulting of its top-level
 * dictionaries (`checkOutOfBounds` in src/core/shared/memoryManager.ts) and
 * the two guid counters kept in `Memory.guid` (`getGuid` in
 * src/core/shared/memoryManager.ts and in src-old/core/orchestrator.ts),
 * plus the body-template choice of `getBodyParts` in the same old orchestrator.
 */
module GameMemory {
  import opened Base

  /** A JavaScript value stored in memory. */
  datatype Value =
    | Undefined
    | Null
    | Bool(b: bool)
    | Num(n: int)
    | Str(s: string)
    | Arr(items: seq<Value>)
    | Obj(fields: map<string, Value>)

  /** JavaScript truthiness: everything except `undefined`, `null`, `false`, `0` and `""`. */
  predicate Truthy(v: Value) {
    match v
    case Undefined => false
    case Null => false
    case Bool(b) => b
    case Num(n) => n != 0
    case Str(s) => s != ""
    case Arr(_) => true
    case Obj(_) => true
  }

  /** Property access `o[key]`: `undefined` for a missing key. */
  function Get(o: map<string, Value>, key: string): (v: Value)
    ensures key !in o ==> v == Undefined
    ensures key in o ==> v == o[key]
  {
    if key in o then o[key] else Undefined
  }

  /** The memory object of one creep, `Memory.creeps[name]`. */
  type CreepMemory = map<string, Value>

  /** A top-level dictionary after defaulting: kept if present, `{}` if missing. */
  function Defaulted<T>(d: Option<map<string, T>>): (r: Option<map<string, T>>)
    ensures r.Some?
    ensures d.Some? ==> r == d
    ensures d.None? ==> r == Some(map[])
  {
    Some(d.GetOr(map[]))
  }

  /** Defaulting a dictionary twice is defaulting it once. */
  lemma DefaultedIdempotent<T>(d: Option<map<string, T>>)
    ensures Defaulted(Defaulted(d)) == Defaulted(d)
  {
  }

  /**
   * The game's `Memory`. `guid` is a number or `undefined`; the
   * dictionaries are missing (`undefined`) or objects.
   */
  class Memory {
    var guid: Option<int>
    var creeps: Option<map<string, CreepMemory>>
    var flags: Option<map<string, Value>>
    var rooms: Option<map<string, Value>>
    var spawns: Option<map<string, Value>>
    var modules: Option<map<string, Value>>

    constructor (guid: Option<int>, creeps: Option<map<string, CreepMemory>>)
      ensures this.guid == guid && this.creeps == creeps
      ensures flags == None && rooms == None && spawns == None && modules == None
    {
      this.guid := guid;
      this.creeps := creeps;
      flags := None;
      rooms := None;
      spawns := None;
      modules := None;
    }

    /** `checkOutOfBounds()`: each missing dictionary becomes `{}`, existing ones stay. */
    method CheckOutOfBounds()
      modifies this
      ensures creeps == Defaulted(old(creeps)) && flags == Defaulted(old(flags))
      ensures rooms == Defaulted(old(rooms)) && spawns == Defaulted(old(spawns))
      ensures modules == Defaulted(old(modules))
      ensures guid == old(guid)
    {
      if creeps.None? {
        creeps := Some(map[]);
      }
      if flags.None? {
        flags := Some(map[]);
      }
      if rooms.None? {
        rooms := Some(map[]);
      }
      if spawns.None? {
        spawns := Some(map[]);
      }
      if modules.None? {
        modules := Some(map[]);
      }
    }

    /** `getGuid()` of the memory manager: stores and returns `NextModuleGuid` of the stored value. */
    method GetGuid() returns (g: int)
      modifies this
      ensures g == NextModuleGuid(old(guid)) && guid == Some(g)
      ensures creeps == old(creeps) && flags == old(flags) && rooms == old(rooms)
      ensures spawns == old(spawns) && modules == old(modules)
    {
      if !GuidTruthy(guid) || guid.value > 100 {
        guid := Some(0);
      }
      guid := Some(guid.value + 1);
      g := guid.value;
    }

    /** `getGuid()` of the old orchestrator: may reset the stored guid, never increments it. */
    method OrchestratorGetGuid() returns (g: int)
      modifies this
      ensures g == OrchestratorGuid(old(guid)) && guid == OrchestratorStore(old(guid))
      ensures creeps == old(creeps) && flags == old(flags) && rooms == old(rooms)
      ensures spawns == old(spawns) && modules == old(modules)
    {
      if !GuidTruthy(guid) || guid.value > 10000 {
        guid := Some(0);
      }
      g := guid.value;
    }
  }

  /** A stored guid is truthy unless it is `undefined` or 0. */
  predicate GuidTruthy(stored: Option<int>) {
    stored.Some? && stored.value != 0
  }

  /**
   * The memory manager's guid: 1 after a missing, zero or above-100 value,
   * otherwise one more than the stored value; so it stays within 1..101
   * while the stored value is not negative.
   */
  function NextModuleGuid(stored: Option<int>): (g: int)
    ensures !GuidTruthy(stored) || stored.value > 100 ==> g == 1
    ensures GuidTruthy(stored) && stored.value <= 100 ==> g == stored.value + 1
    ensures (stored.None? || stored.value >= 0) ==> 1 <= g <= 101
  {
    var base := if !GuidTruthy(stored) || stored.value > 100 then 0 else stored.value;
    base + 1
  }

  /** Whether the old orchestrator's `getGuid` resets the stored value to 0. */
  predicate OrchestratorResets(stored: Option<int>) {
    !GuidTruthy(stored) || stored.value > 10000
  }

  /** The value the old orchestrator's `getGuid` leaves in `Memory.guid`. */
  function OrchestratorStore(stored: Option<int>): (s: Option<int>)
    ensures s.Some?
    ensures OrchestratorResets(stored) ==> s == Some(0)
    ensures !OrchestratorResets(stored) ==> s == stored
  {
    if OrchestratorResets(stored) then Some(0) else stored
  }

  /**
   * The old orchestrator's guid: 0 after a missing, zero or above-10000
   * value, otherwise the stored value itself; so it stays within 0..10000
   * while the stored value is not negative.
   */
  function OrchestratorGuid(stored: Option<int>): (g: int)
    ensures OrchestratorResets(stored) ==> g == 0
    ensures !OrchestratorResets(stored) ==> g == stored.value
    ensures (stored.None? || stored.value >= 0) ==> 0 <= g <= 10000
    ensures OrchestratorStore(stored) == Some(g)
  {
    OrchestratorStore(stored).value
  }

  /**
   * Two calls of the old orchestrator's `getGuid` with nothing in between
   * return the same value and leave the same stored value.
   */
  lemma OrchestratorGuidStable(stored: Option<int>)
    ensures OrchestratorGuid(OrchestratorStore(stored)) == OrchestratorGuid(stored)
    ensures OrchestratorStore(OrchestratorStore(stored)) == OrchestratorStore(stored)
  {
  }

  /** The two-call version of `OrchestratorGuidStable` on the memory object itself. */
  method OrchestratorGetGuidTwice(memory: Memory) returns (g1: int, g2: int)
    modifies memory
    ensures g1 == g2 == OrchestratorGuid(old(memory.guid))
  {
    g1 := memory.OrchestratorGetGuid();
    g2 := memory.OrchestratorGetGuid();
    OrchestratorGuidStable(old(memory.guid));
  }

  /** The body templates of the job configuration. */
  datatype BodyTemplate = Haulers | Harvesters | Workers

  /** `getBodyParts`' switch: haulers and harvesters have their own template, every other role the workers'. */
  function TemplateFor(role: string): (t: BodyTemplate)
    ensures t == Haulers <==> role == "hauler"
    ensures t == Harvesters <==> role == "harvester"
    ensures t == Workers <==> role != "hauler" && role != "harvester"
  {
    match role
    case "hauler" => Haulers
    case "harvester" => Harvesters
    case _ => Workers
  }

  /**
   * `getBodyParts(role, spawn)`: the largest body the spawn can build from
   * the role's template; `largest` stands for the spawn's
   * `getLargestBuildableBodyFromTemplate`.
   */
  function GetBodyParts(role: string, largest: BodyTemplate -> seq<string>): seq<string> {
    largest(TemplateFor(role))
  }
}
