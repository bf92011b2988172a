/**
 * The memory bookkeeping of the two room classes: `RoomOrchestrator`
 * (src/room/roomOrchestrator.ts), which sets up a room when constructed,
 * and `RoomManager` (src/room/roomManager.ts), which does the same at the
 * start of `run()`. Both default missing or falsy fields of the room
 * memory and clean `Memory.creeps`; they differ in the fields they create
 * and in the list a dead source miner's claim is handed back to.
 */
module Rooms {
  import opened Base
  import opened GameMemory
  import opened CreepCleanup

  /** The room orchestrator's `initialiseMemory`: `jobs` becomes `{}` and `manualJobControl` `true` when falsy. */
  function OrchestratorInitialised(m: map<string, Value>): (r: map<string, Value>)
    ensures r.Keys == m.Keys + {"jobs", "manualJobControl"}
    ensures Truthy(r["jobs"]) && Truthy(r["manualJobControl"])
    ensures Truthy(Get(m, "jobs")) ==> r["jobs"] == m["jobs"]
    ensures !Truthy(Get(m, "jobs")) ==> r["jobs"] == Obj(map[])
    ensures Truthy(Get(m, "manualJobControl")) ==> r["manualJobControl"] == m["manualJobControl"]
    ensures Get(m, "manualJobControl") == Bool(false) ==> r["manualJobControl"] == Bool(true)
    ensures forall k :: k in m && k != "jobs" && k != "manualJobControl" ==> r[k] == m[k]
  {
    DefaultField(DefaultField(m, "jobs", Obj(map[])), "manualJobControl", Bool(true))
  }

  /** The room manager's `initializeMemory` on its memory object: the orchestrator's fields plus `claimedFlags = []`. */
  function ManagerInitialised(m: map<string, Value>): (r: map<string, Value>)
    ensures r.Keys == m.Keys + {"jobs", "manualJobControl", "claimedFlags"}
    ensures Truthy(r["jobs"]) && Truthy(r["manualJobControl"]) && Truthy(r["claimedFlags"])
    ensures Truthy(Get(m, "claimedFlags")) ==> r["claimedFlags"] == m["claimedFlags"]
    ensures !Truthy(Get(m, "claimedFlags")) ==> r["claimedFlags"] == Arr([])
    ensures forall k :: k in m && k != "claimedFlags" ==> r[k] == OrchestratorInitialised(m)[k]
  {
    DefaultField(OrchestratorInitialised(m), "claimedFlags", Arr([]))
  }

  /** Initialising an initialised memory changes nothing, for both classes. */
  lemma InitialisedIdempotent(m: map<string, Value>)
    ensures OrchestratorInitialised(OrchestratorInitialised(m)) == OrchestratorInitialised(m)
    ensures ManagerInitialised(ManagerInitialised(m)) == ManagerInitialised(m)
  {
    var o := OrchestratorInitialised(m);
    DefaultFieldIdempotent(DefaultField(m, "jobs", Obj(map[])), "manualJobControl", Bool(true));
    assert DefaultField(o, "jobs", Obj(map[])) == o;
    var r := ManagerInitialised(m);
    assert DefaultField(r, "jobs", Obj(map[])) == r;
    assert DefaultField(r, "manualJobControl", Bool(true)) == r;
    assert DefaultField(r, "claimedFlags", Arr([])) == r;
  }

  /** `Memory.rooms[roomName]`, which is what `room.memory` refers to: undefined when either is missing. */
  function RoomValue(rooms: Option<map<string, Value>>, roomName: string): Value {
    if rooms.Some? then Get(rooms.value, roomName) else Undefined
  }

  /** `Memory.rooms[roomName]` is an object. */
  predicate HasRoom(rooms: Option<map<string, Value>>, roomName: string) {
    RoomValue(rooms, roomName).Obj?
  }

  /** The fields of the object `Memory.rooms[roomName]`; `{}` when there is none. */
  function RoomFields(rooms: Option<map<string, Value>>, roomName: string): map<string, Value> {
    if HasRoom(rooms, roomName) then RoomValue(rooms, roomName).fields else map[]
  }

  /** Storing the room's own fields back under its name changes nothing. */
  lemma RoomWriteBack(rooms: Option<map<string, Value>>, roomName: string)
    requires HasRoom(rooms, roomName)
    ensures Some(rooms.value[roomName := Obj(RoomFields(rooms, roomName))]) == rooms
  {
    assert rooms.value[roomName := Obj(RoomFields(rooms, roomName))] == rooms.value;
  }

  /** The entries of `Memory.rooms` other than `roomName` are as they were, and no room is added or removed. */
  predicate OtherRoomsKept(rooms0: Option<map<string, Value>>, rooms1: Option<map<string, Value>>, roomName: string) {
    rooms0.Some? && rooms1.Some? && rooms1.value.Keys == rooms0.value.Keys
    && forall r :: r in rooms0.value && r != roomName ==> rooms1.value[r] == rooms0.value[r]
  }

  /**
   * `this.memory[key] = v` where `this.memory` is the object
   * `Memory.rooms[roomName]`: the write is seen through `Memory.rooms`, and
   * nothing else in memory changes.
   */
  method SetRoomField(game: Memory, roomName: string, key: string, v: Value)
    requires HasRoom(game.rooms, roomName)
    modifies game
    ensures game.rooms == Some(old(game.rooms).value[roomName := Obj(RoomFields(old(game.rooms), roomName)[key := v])])
    ensures HasRoom(game.rooms, roomName) && RoomFields(game.rooms, roomName) == RoomFields(old(game.rooms), roomName)[key := v]
    ensures game.guid == old(game.guid) && game.creeps == old(game.creeps) && game.flags == old(game.flags)
    ensures game.spawns == old(game.spawns) && game.modules == old(game.modules)
  {
    game.rooms := Some(game.rooms.value[roomName := Obj(RoomFields(game.rooms, roomName)[key := v])]);
  }

  /**
   * The orchestrator's room memory `m`, set up from `m0`: `jobs` and
   * `manualJobControl` truthy, `sources` an array, every other key of `m0`
   * as it was.
   */
  predicate OrchestratorReady(m0: map<string, Value>, m: map<string, Value>) {
    Truthy(Get(m, "jobs")) && Truthy(Get(m, "manualJobControl")) && Get(m, "sources").Arr?
    && forall k :: k in m0 && k != "jobs" && k != "manualJobControl" && k != "sources" ==> Get(m, k) == m0[k]
  }

  /** Initialising a memory whose sources are an array or falsy, then defaulting the sources, sets it up. */
  lemma OrchestratorSetUp(m0: map<string, Value>)
    requires ListOrFalsy(Get(m0, "sources"))
    ensures OrchestratorReady(m0, DefaultField(OrchestratorInitialised(m0), "sources", Arr([])))
  {
    assert Get(OrchestratorInitialised(m0), "sources") == Get(m0, "sources");
  }

  /** Replacing the sources by another array keeps the memory set up. */
  lemma OrchestratorReadyKeeps(m0: map<string, Value>, m: map<string, Value>, v: Value)
    requires OrchestratorReady(m0, m) && v.Arr?
    ensures OrchestratorReady(m0, m["sources" := v])
  {
  }

  /**
   * A room orchestrator: the room's name and the game's `Memory`. Its
   * `memory` field is the same object as `Memory.rooms[roomName]`, so it is
   * modelled as that entry, and every write to it is a write to `Memory.rooms`.
   */
  class RoomOrchestrator {
    const roomName: string
    const game: Memory

    /** `this.memory`: the fields of `Memory.rooms[roomName]`. */
    function Mem(): map<string, Value>
      reads game
    {
      RoomFields(game.rooms, roomName)
    }

    /**
     * `new RoomOrchestrator(room)`: takes the room's memory and runs
     * `initialiseMemory`, `refreshMiningPositions` and `cleanupCreepMemory`
     * on it; `alive` are the names in `Game.creeps`.
     */
    constructor (roomName: string, game: Memory, alive: set<string>)
      requires HasRoom(game.rooms, roomName)
      requires ListOrFalsy(Get(RoomFields(game.rooms, roomName), "sources"))
      modifies game
      ensures this.roomName == roomName && this.game == game
      ensures HasRoom(game.rooms, roomName)
      ensures OrchestratorReady(old(RoomFields(game.rooms, roomName)), Mem())
      ensures OtherRoomsKept(old(game.rooms), game.rooms, roomName)
      ensures game.creeps.Some? ==> forall name :: name in game.creeps.value && OfRoom(game.creeps.value[name], roomName) ==>
        name in alive
      ensures old(game.creeps).Some? ==> game.creeps == Some(Survivors(old(game.creeps).value, roomName, alive))
      ensures old(game.creeps).None? ==> game.creeps == None
      ensures game.guid == old(game.guid)
      ensures game.flags == old(game.flags) && game.spawns == old(game.spawns) && game.modules == old(game.modules)
    {
      this.roomName := roomName;
      this.game := game;
      new;
      ghost var m0 := Mem();
      InitialiseMemory();
      RefreshMiningPositions();
      ghost var m2 := Mem();
      OrchestratorSetUp(m0);
      ghost var order := CleanupCreepMemory(alive);
      if old(game.creeps).Some? {
        OrchestratorReadyKeeps(m0, m2, Mem()["sources"]);
        SurvivorsOfRoomAreAlive(old(game.creeps).value, roomName, alive);
      }
    }

    /** `initialiseMemory()`, writing through to `Memory.rooms[roomName]`. */
    method InitialiseMemory()
      requires HasRoom(game.rooms, roomName)
      modifies game
      ensures game.rooms == Some(old(game.rooms).value[roomName := Obj(OrchestratorInitialised(old(Mem())))])
      ensures HasRoom(game.rooms, roomName) && Mem() == OrchestratorInitialised(old(Mem()))
      ensures game.guid == old(game.guid) && game.creeps == old(game.creeps)
      ensures game.flags == old(game.flags) && game.spawns == old(game.spawns) && game.modules == old(game.modules)
    {
      ghost var rooms0 := game.rooms;
      RoomWriteBack(game.rooms, roomName);
      if !Truthy(Get(Mem(), "jobs")) {
        SetRoomField(game, roomName, "jobs", Obj(map[]));
      }
      assert game.rooms == Some(rooms0.value[roomName := Obj(Mem())]);
      if !Truthy(Get(Mem(), "manualJobControl")) {
        SetRoomField(game, roomName, "manualJobControl", Bool(true));
        assert game.rooms.value == rooms0.value[roomName := Obj(Mem())];
      }
    }

    /** `refreshMiningPositions()`: `sources` becomes `[]` when falsy, in `Memory.rooms[roomName]`. */
    method RefreshMiningPositions()
      requires HasRoom(game.rooms, roomName)
      modifies game
      ensures game.rooms == Some(old(game.rooms).value[roomName := Obj(DefaultField(old(Mem()), "sources", Arr([])))])
      ensures HasRoom(game.rooms, roomName) && Mem() == DefaultField(old(Mem()), "sources", Arr([]))
      ensures game.guid == old(game.guid) && game.creeps == old(game.creeps)
      ensures game.flags == old(game.flags) && game.spawns == old(game.spawns) && game.modules == old(game.modules)
    {
      RoomWriteBack(game.rooms, roomName);
      if !Truthy(Get(Mem(), "sources")) {
        SetRoomField(game, roomName, "sources", Arr([]));
      }
    }

    /**
     * `cleanupCreepMemory()`: deletes the entries of this room's dead creeps
     * and the empty entries of other rooms, and pushes the `assignedSource`
     * of each dead source miner of this room onto `sources` in
     * `Memory.rooms[roomName]`, once.
     */
    method CleanupCreepMemory(alive: set<string>) returns (ghost order: seq<string>)
      requires HasRoom(game.rooms, roomName) && Get(Mem(), "sources").Arr?
      modifies game
      ensures HasRoom(game.rooms, roomName)
      ensures old(game.creeps).None? ==> game.creeps == None && game.rooms == old(game.rooms)
      ensures old(game.creeps).Some? ==>
        game.creeps == Some(Survivors(old(game.creeps).value, roomName, alive))
        && Distinct(order)
        && (forall name :: name in order <==> name in Handing(old(game.creeps).value, roomName, alive))
        && game.rooms == Some(old(game.rooms).value[roomName := Obj(old(Mem())["sources" :=
             Arr(old(Mem())["sources"].items + Claims(old(game.creeps).value, order, "assignedSource"))])])
      ensures game.guid == old(game.guid)
      ensures game.flags == old(game.flags) && game.spawns == old(game.spawns) && game.modules == old(game.modules)
    {
      var sources;
      ghost var m := Mem();
      RoomWriteBack(game.rooms, roomName);
      assert m["sources" := Arr(m["sources"].items)] == m;
      sources, order := CleanupCreeps(game, roomName, alive, Mem()["sources"].items, "assignedSource");
      SetRoomField(game, roomName, "sources", Arr(sources));
    }
  }

  /**
   * What a room manager's `memory` refers to: the room's entry
   * `Memory.rooms[roomName]` when the room has memory, nothing (a falsy
   * value) when it has none, or the fresh object the manager then makes for
   * itself, which `Memory.rooms` never sees.
   */
  datatype MemoryRef = Shared | Unset | Own(fields: map<string, Value>)

  /** The fields `memory` refers to; `{}` while it is unset. */
  function RefFields(ref: MemoryRef, rooms: Option<map<string, Value>>, roomName: string): map<string, Value> {
    match ref
    case Shared => RoomFields(rooms, roomName)
    case Unset => map[]
    case Own(m) => m
  }

  /**
   * A manager whose memory was `before` now holds the fields `m`: a shared
   * memory stays shared and `Memory.rooms[roomName]` holds `m`, nothing else
   * in `Memory.rooms` changing; otherwise the manager owns `m` and
   * `Memory.rooms` is untouched.
   */
  predicate WrittenThrough(before: MemoryRef, after: MemoryRef, rooms0: Option<map<string, Value>>,
                           rooms1: Option<map<string, Value>>, roomName: string, m: map<string, Value>) {
    if before.Shared? then after == Shared && rooms0.Some? && rooms1 == Some(rooms0.value[roomName := Obj(m)])
    else after == Own(m) && rooms1 == rooms0
  }

  /** Two writes in a row are one write of the last fields. */
  lemma WrittenThroughChain(b: MemoryRef, a1: MemoryRef, a2: MemoryRef, rooms0: Option<map<string, Value>>,
                            rooms1: Option<map<string, Value>>, rooms2: Option<map<string, Value>>, roomName: string,
                            m1: map<string, Value>, m2: map<string, Value>)
    requires WrittenThrough(b, a1, rooms0, rooms1, roomName, m1) && WrittenThrough(a1, a2, rooms1, rooms2, roomName, m2)
    ensures WrittenThrough(b, a2, rooms0, rooms2, roomName, m2)
  {
    if b.Shared? {
      assert rooms2.value == rooms0.value[roomName := Obj(m2)];
    }
  }

  /** A room manager's memory once `run()` has set it up: the fields the rest of the tick reads. */
  predicate Prepared(m: map<string, Value>) {
    Truthy(Get(m, "jobs")) && Truthy(Get(m, "manualJobControl")) && Truthy(Get(m, "claimedFlags"))
    && Get(m, "unoccupiedMiningPositions").Arr?
  }

  /**
   * Initialising a memory whose mining positions are an array or falsy, then
   * defaulting the positions, prepares it.
   */
  lemma ManagerPrepared(m: map<string, Value>)
    requires ListOrFalsy(Get(m, "unoccupiedMiningPositions"))
    ensures Prepared(DefaultField(ManagerInitialised(m), "unoccupiedMiningPositions", Arr([])))
  {
    var mi := ManagerInitialised(m);
    assert Get(mi, "unoccupiedMiningPositions") == Get(m, "unoccupiedMiningPositions");
    assert Truthy(mi["jobs"]) && Truthy(mi["manualJobControl"]) && Truthy(mi["claimedFlags"]);
  }

  /** Replacing the mining positions by another array keeps a memory prepared. */
  lemma PreparedKeeps(m: map<string, Value>, v: Value)
    requires Prepared(m) && v.Arr?
    ensures Prepared(m["unoccupiedMiningPositions" := v])
  {
  }

  /**
   * A room manager: the room's name, the game's `Memory`, and what its
   * `memory` field refers to.
   */
  class RoomManager {
    const roomName: string
    const game: Memory
    var memory: MemoryRef

    /** A shared memory is an object in `Memory.rooms`. */
    predicate Valid()
      reads this, game
    {
      memory.Shared? ==> HasRoom(game.rooms, roomName)
    }

    /** The fields of `this.memory`; `{}` while it is unset. */
    function Mem(): map<string, Value>
      reads this, game
    {
      RefFields(memory, game.rooms, roomName)
    }

    /** `new RoomManager(room)`: keeps the room's name and a reference to `room.memory`. */
    constructor (roomName: string, game: Memory)
      requires HasRoom(game.rooms, roomName) || !Truthy(RoomValue(game.rooms, roomName))
      ensures this.roomName == roomName && this.game == game && Valid()
      ensures memory == if HasRoom(game.rooms, roomName) then Shared else Unset
    {
      this.roomName := roomName;
      this.game := game;
      memory := if HasRoom(game.rooms, roomName) then Shared else Unset;
    }

    /** `this.memory[key] = v` on a memory that is set: seen in `Memory.rooms` exactly when it is shared. */
    method SetField(key: string, v: Value)
      requires Valid() && !memory.Unset?
      modifies this, game
      ensures Valid() && !memory.Unset?
      ensures WrittenThrough(old(memory), memory, old(game.rooms), game.rooms, roomName, old(Mem())[key := v])
      ensures Mem() == old(Mem())[key := v]
      ensures game.guid == old(game.guid) && game.creeps == old(game.creeps)
      ensures game.flags == old(game.flags) && game.spawns == old(game.spawns) && game.modules == old(game.modules)
    {
      if memory.Own? {
        memory := Own(memory.fields[key := v]);
      } else {
        SetRoomField(game, roomName, key, v);
      }
    }

    /** `if (!this.memory) this.memory = {}`: the manager's own object, or the memory it has, unchanged. */
    method EnsureMemory()
      requires Valid()
      modifies this
      ensures Valid() && !memory.Unset?
      ensures WrittenThrough(old(memory), memory, game.rooms, game.rooms, roomName, old(Mem()))
      ensures Mem() == old(Mem())
    {
      if memory.Unset? {
        memory := Own(map[]);
      } else if memory.Shared? {
        RoomWriteBack(game.rooms, roomName);
      }
    }

    /** `initializeMemory()`: a missing memory becomes `{}`, then the three fields are defaulted. */
    method InitializeMemory()
      requires Valid()
      modifies this, game
      ensures Valid() && !memory.Unset?
      ensures WrittenThrough(old(memory), memory, old(game.rooms), game.rooms, roomName, ManagerInitialised(old(Mem())))
      ensures Mem() == ManagerInitialised(old(Mem()))
      ensures game.guid == old(game.guid) && game.creeps == old(game.creeps)
      ensures game.flags == old(game.flags) && game.spawns == old(game.spawns) && game.modules == old(game.modules)
    {
      ghost var ref0, rooms0 := memory, game.rooms;
      EnsureMemory();
      ghost var ref1, rooms1, m1 := memory, game.rooms, Mem();
      if !Truthy(Get(Mem(), "jobs")) {
        SetField("jobs", Obj(map[]));
        WrittenThroughChain(ref0, ref1, memory, rooms0, rooms1, game.rooms, roomName, m1, Mem());
      }
      ghost var ref2, rooms2, m2 := memory, game.rooms, Mem();
      if !Truthy(Get(Mem(), "manualJobControl")) {
        SetField("manualJobControl", Bool(true));
        WrittenThroughChain(ref0, ref2, memory, rooms0, rooms2, game.rooms, roomName, m2, Mem());
      }
      ghost var ref3, rooms3, m3 := memory, game.rooms, Mem();
      if !Truthy(Get(Mem(), "claimedFlags")) {
        SetField("claimedFlags", Arr([]));
        WrittenThroughChain(ref0, ref3, memory, rooms0, rooms3, game.rooms, roomName, m3, Mem());
      }
    }

    /** `refreshMiningPositions()`: a missing memory becomes `{}`, and `unoccupiedMiningPositions` `[]` when falsy. */
    method RefreshMiningPositions()
      requires Valid()
      modifies this, game
      ensures Valid() && !memory.Unset?
      ensures WrittenThrough(old(memory), memory, old(game.rooms), game.rooms, roomName,
                             DefaultField(old(Mem()), "unoccupiedMiningPositions", Arr([])))
      ensures Mem() == DefaultField(old(Mem()), "unoccupiedMiningPositions", Arr([]))
      ensures game.guid == old(game.guid) && game.creeps == old(game.creeps)
      ensures game.flags == old(game.flags) && game.spawns == old(game.spawns) && game.modules == old(game.modules)
    {
      ghost var ref0, rooms0 := memory, game.rooms;
      EnsureMemory();
      ghost var ref1, rooms1, m1 := memory, game.rooms, Mem();
      if !Truthy(Get(Mem(), "unoccupiedMiningPositions")) {
        SetField("unoccupiedMiningPositions", Arr([]));
        WrittenThroughChain(ref0, ref1, memory, rooms0, rooms1, game.rooms, roomName, m1, Mem());
      }
    }

    /**
     * `cleanupCreepMemory()`: as the orchestrator's, but a dead source
     * miner hands its `occupiedMiningPosition` back to `unoccupiedMiningPositions`.
     */
    method CleanupCreepMemory(alive: set<string>) returns (ghost order: seq<string>)
      requires Valid() && !memory.Unset? && Get(Mem(), "unoccupiedMiningPositions").Arr?
      modifies this, game
      ensures Valid() && !memory.Unset?
      ensures old(game.creeps).None? ==>
        game.creeps == None && Mem() == old(Mem())
        && WrittenThrough(old(memory), memory, old(game.rooms), game.rooms, roomName, old(Mem()))
      ensures old(game.creeps).Some? ==>
        game.creeps == Some(Survivors(old(game.creeps).value, roomName, alive))
        && Distinct(order)
        && (forall name :: name in order <==> name in Handing(old(game.creeps).value, roomName, alive))
        && Mem() == old(Mem())["unoccupiedMiningPositions" :=
             Arr(old(Mem())["unoccupiedMiningPositions"].items
                 + Claims(old(game.creeps).value, order, "occupiedMiningPosition"))]
        && WrittenThrough(old(memory), memory, old(game.rooms), game.rooms, roomName, Mem())
      ensures game.guid == old(game.guid)
      ensures game.flags == old(game.flags) && game.spawns == old(game.spawns) && game.modules == old(game.modules)
    {
      var positions;
      ghost var m := Mem();
      assert m["unoccupiedMiningPositions" := Arr(m["unoccupiedMiningPositions"].items)] == m;
      positions, order := CleanupCreeps(game, roomName, alive, Mem()["unoccupiedMiningPositions"].items,
                                        "occupiedMiningPosition");
      SetField("unoccupiedMiningPositions", Arr(positions));
    }

    /**
     * The memory part of `run()`: `initializeMemory`, `refreshMiningPositions`
     * and `cleanupCreepMemory`, after which the room memory has its fields
     * and every creep entry left that belongs to this room names a live
     * creep. A shared memory is `Memory.rooms[roomName]`, where the creep
     * manager reads the job quotas; other rooms are untouched.
     */
    method Run(alive: set<string>) returns (ghost order: seq<string>)
      requires Valid()
      requires memory.Unset? || ListOrFalsy(Get(Mem(), "unoccupiedMiningPositions"))
      modifies this, game
      ensures Valid() && !memory.Unset? && Prepared(Mem())
      ensures old(memory).Shared? ==> memory.Shared? && OtherRoomsKept(old(game.rooms), game.rooms, roomName)
      ensures !old(memory).Shared? ==> memory.Own? && game.rooms == old(game.rooms)
      ensures game.creeps.Some? ==> forall name :: name in game.creeps.value && OfRoom(game.creeps.value[name], roomName) ==>
        name in alive
      ensures old(game.creeps).Some? ==> game.creeps == Some(Survivors(old(game.creeps).value, roomName, alive))
      ensures old(game.creeps).None? ==> game.creeps == None
      ensures game.guid == old(game.guid)
      ensures game.flags == old(game.flags) && game.spawns == old(game.spawns) && game.modules == old(game.modules)
    {
      ghost var ref0, rooms0, m0 := memory, game.rooms, Mem();
      InitializeMemory();
      ghost var ref1, rooms1, m1 := memory, game.rooms, Mem();
      RefreshMiningPositions();
      WrittenThroughChain(ref0, ref1, memory, rooms0, rooms1, game.rooms, roomName, m1, Mem());
      ghost var ref2, rooms2, m2 := memory, game.rooms, Mem();
      ManagerPrepared(m0);
      order := CleanupCreepMemory(alive);
      WrittenThroughChain(ref0, ref2, memory, rooms0, rooms2, game.rooms, roomName, m2, Mem());
      if old(game.creeps).Some? {
        PreparedKeeps(m2, Mem()["unoccupiedMiningPositions"]);
      }
      if old(game.creeps).Some? {
        SurvivorsOfRoomAreAlive(old(game.creeps).value, roomName, alive);
      }
    }
  }
}
